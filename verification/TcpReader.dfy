// Incremental framing of a byte stream: framework/communication/tcp_reader.cpp.
//
// Parse is the specification, a function of the whole stream consumed so far;
// class TcpReader is proved to deliver exactly its packets, however recv cuts
// the stream up.
module TcpReaders {
  import opened Cipher

  // The header callback: the packet's total size, from its header.
  type Sizer = Data -> nat

  // The callback returns at least the header size.
  ghost predicate SizerOk(header: nat, size: Sizer) {
    header > 0 && forall h: Data :: |h| == header ==> size(h) >= header
  }

  // Complete packets, and the bytes of the packet still being read.
  datatype Parsed = Parsed(packets: seq<Data>, rest: Data)

  ghost function Parse(header: nat, size: Sizer, bytes: Data): Parsed
    requires SizerOk(header, size)
    decreases |bytes|
  {
    if |bytes| < header || |bytes| < size(bytes[..header]) then Parsed([], bytes)
    else
      var n := size(bytes[..header]);
      var later := Parse(header, size, bytes[n..]);
      Parsed([bytes[..n]] + later.packets, later.rest)
  }

  function Concat(chunks: seq<Data>): Data {
    if chunks == [] then [] else chunks[0] + Concat(chunks[1..])
  }

  // The bytes hold a whole packet.
  ghost predicate Complete(header: nat, size: Sizer, bytes: Data)
    requires SizerOk(header, size)
  {
    |bytes| >= header && |bytes| >= size(bytes[..header])
  }

  lemma ParseStep(header: nat, size: Sizer, bytes: Data)
    requires SizerOk(header, size)
    ensures !Complete(header, size, bytes) ==> Parse(header, size, bytes) == Parsed([], bytes)
    ensures Complete(header, size, bytes) ==>
              var n := size(bytes[..header]);
              var later := Parse(header, size, bytes[n..]);
              0 < n && Parse(header, size, bytes) == Parsed([bytes[..n]] + later.packets, later.rest)
  {
  }

  // Parsing can stop and go on from the unfinished bytes.
  lemma {:induction false} ParseMore(header: nat, size: Sizer, a: Data, b: Data)
    requires SizerOk(header, size)
    ensures var p := Parse(header, size, a);
            var q := Parse(header, size, p.rest + b);
            Parse(header, size, a + b) == Parsed(p.packets + q.packets, q.rest)
    decreases |a|
  {
    hide Parse;
    ParseStep(header, size, a);
    if Complete(header, size, a) {
      var n := size(a[..header]);
      assert (a + b)[..header] == a[..header];
      assert (a + b)[..n] == a[..n];
      assert (a + b)[n..] == a[n..] + b;
      ParseStep(header, size, a + b);
      ParseMore(header, size, a[n..], b);
    }
  }

  // The unfinished bytes hold no complete packet, and nothing is lost: the
  // packets and the unfinished bytes are the stream.
  lemma {:induction false} RestIncomplete(header: nat, size: Sizer, bytes: Data)
    requires SizerOk(header, size)
    ensures var p := Parse(header, size, bytes); !Complete(header, size, p.rest) && Concat(p.packets) + p.rest == bytes
    decreases |bytes|
  {
    hide Parse;
    ParseStep(header, size, bytes);
    if Complete(header, size, bytes) {
      var n := size(bytes[..header]);
      RestIncomplete(header, size, bytes[n..]);
      var later := Parse(header, size, bytes[n..]);
      assert ([bytes[..n]] + later.packets)[1..] == later.packets;
      assert bytes == bytes[..n] + (Concat(later.packets) + later.rest);
    }
  }

  // A stream of complete packets parses to those packets.
  lemma {:induction false} ParsePackets(header: nat, size: Sizer, packets: seq<Data>)
    requires SizerOk(header, size)
    requires forall p :: p in packets ==> |p| >= header && size(p[..header]) == |p|
    ensures Parse(header, size, Concat(packets)) == Parsed(packets, [])
    decreases |packets|
  {
    if packets != [] {
      var p, bytes := packets[0], Concat(packets);
      assert p in packets;
      assert bytes[..header] == p[..header] && bytes[..|p|] == p && bytes[|p|..] == Concat(packets[1..]);
      ParsePackets(header, size, packets[1..]);
    }
  }

  // Reading chunk by chunk, keeping only the unfinished bytes.
  ghost function Feed(header: nat, size: Sizer, state: Parsed, chunks: seq<Data>): Parsed
    requires SizerOk(header, size)
    decreases |chunks|
  {
    if chunks == [] then state
    else
      var p := Parse(header, size, state.rest + chunks[0]);
      Feed(header, size, Parsed(state.packets + p.packets, p.rest), chunks[1..])
  }

  // The packets do not depend on how the stream was cut into chunks.
  lemma {:induction false} ChunkIndependent(header: nat, size: Sizer, before: Data, chunks: seq<Data>)
    requires SizerOk(header, size)
    ensures Feed(header, size, Parse(header, size, before), chunks) == Parse(header, size, before + Concat(chunks))
    decreases |chunks|
  {
    hide Parse;
    if chunks == [] {
      assert before + Concat(chunks) == before;
    } else {
      ParseMore(header, size, before, chunks[0]);
      ChunkIndependent(header, size, before + chunks[0], chunks[1..]);
      assert before + Concat(chunks) == before + chunks[0] + Concat(chunks[1..]);
    }
  }

  // What recv answers: how many of the stream's next bytes it copied.
  datatype Recv = Got(count: nat) | Interrupted | WouldBlock | Failed

  // recv as a function of the number of bytes asked for and available.
  type Kernel = (nat, nat) -> Recv

  ghost predicate KernelOk(recv: Kernel) {
    forall n: nat, available: nat :: recv(n, available).Got? ==> recv(n, available).count <= n && recv(n, available).count <= available
  }

  // std::vector::resize
  function Resize(s: Data, n: nat): (r: Data)
    ensures |r| == n
    ensures forall k :: 0 <= k <= |s| && k <= n ==> r[..k] == s[..k]
  {
    if n <= |s| then s[..n] else s + seq(n - |s|, _ => 0)
  }

  // Bytes received into a buffer from position k.
  function Receive(s: Data, k: nat, bytes: Data): (r: Data)
    requires k + |bytes| <= |s|
    ensures |r| == |s| && r[..k + |bytes|] == s[..k] + bytes
  {
    s[..k] + bytes + s[k + |bytes|..]
  }

  function Count(answer: Recv): nat {
    if answer.Got? then answer.count else 0
  }

  // How many bytes one call of Read takes off the stream, and whether it
  // throws: only the second recv may find the socket empty.
  ghost function Taken(header: nat, size: Sizer, partial: Data, unread: Data, recv1: Kernel, recv2: Kernel): (nat, bool)
    requires SizerOk(header, size) && KernelOk(recv1)
    requires |partial| >= header ==> |partial| <= size(partial[..header])
  {
    if |partial| >= header then
      var b := recv2(size(partial[..header]) - |partial|, |unread|);
      (Count(b), b.Failed?)
    else
      var a := recv1(header - |partial|, |unread|);
      var n := Count(a);
      if |partial| + n < header then (n, a.WouldBlock? || a.Failed?)
      else if size(partial + unread[..n]) == header then (n, false)
      else
        var b := recv2(size(partial + unread[..n]) - header, |unread| - n);
        (n + Count(b), b.Failed?)
  }

  lemma TakenBody(header: nat, size: Sizer, partial: Data, unread: Data, recv1: Kernel, recv2: Kernel)
    requires SizerOk(header, size) && KernelOk(recv1) && header <= |partial| <= size(partial[..header])
    ensures var b := recv2(size(partial[..header]) - |partial|, |unread|);
            Taken(header, size, partial, unread, recv1, recv2) == (Count(b), b.Failed?)
  {
  }

  lemma TakenHeader(header: nat, size: Sizer, partial: Data, taken: Data, unread: Data, recv1: Kernel, recv2: Kernel)
    requires SizerOk(header, size) && KernelOk(recv1) && |partial| < header && taken <= unread
    requires |taken| == Count(recv1(header - |partial|, |unread|))
    ensures var a := recv1(header - |partial|, |unread|);
            |partial + taken| < header ==>
              Taken(header, size, partial, unread, recv1, recv2) == (|taken|, a.WouldBlock? || a.Failed?)
    ensures |partial + taken| >= header && size(partial + taken) == header ==>
              Taken(header, size, partial, unread, recv1, recv2) == (|taken|, false)
    ensures |partial + taken| >= header && size(partial + taken) > header ==>
              var b := recv2(size(partial + taken) - header, |unread| - |taken|);
              Taken(header, size, partial, unread, recv1, recv2) == (|taken| + Count(b), b.Failed?)
  {
    assert unread[..|taken|] == taken;
  }

  class TcpReader {
    const headerSize: nat
    const onHeader: Sizer
    var packet: Data            // *m_packet
    var readenCount: nat
    var delivered: seq<Data>    // the calls of m_onPacket
    var unread: Data            // the socket's receive queue
    ghost var consumed: Data    // everything recv has returned

    ghost predicate Valid()
      reads this
    {
      && SizerOk(headerSize, onHeader)
      && headerSize <= |packet| && readenCount <= |packet|
      && (readenCount >= headerSize ==> readenCount < |packet| == onHeader(packet[..headerSize]))
      && Parse(headerSize, onHeader, consumed) == Parsed(delivered, packet[..readenCount])
    }

    // What is there of the packet being read.
    ghost function Partial(): (p: Data)
      requires Valid()
      reads this
      ensures |p| >= headerSize ==> |p| <= |packet| == onHeader(p[..headerSize])
    {
      assert readenCount >= headerSize ==> packet[..readenCount][..headerSize] == packet[..headerSize];
      packet[..readenCount]
    }

    constructor (headerSize: nat, onHeader: Sizer)
      requires SizerOk(headerSize, onHeader)
      ensures Valid() && this.headerSize == headerSize && this.onHeader == onHeader
      ensures consumed == [] && delivered == [] && unread == []
    {
      this.headerSize, this.onHeader := headerSize, onHeader;
      packet, readenCount, delivered, unread, consumed := seq(headerSize, _ => 0), 0, [], [], [];
    }

    // Bytes arrive at the socket.
    method Arrive(bytes: Data)
      requires Valid()
      modifies this`unread
      ensures Valid() && unread == old(unread) + bytes
    {
      unread := unread + bytes;
    }

    // recv into the buffer behind the bytes read so far.
    method Fill(recv: Kernel, n: nat) returns (answer: Recv)
      requires KernelOk(recv) && readenCount + n <= |packet|
      modifies this`packet, this`readenCount, this`unread
      ensures answer == recv(n, |old(unread)|)
      ensures |packet| == |old(packet)| && old(readenCount) <= readenCount <= old(readenCount) + n
      ensures !answer.Got? ==> packet == old(packet) && readenCount == old(readenCount) && unread == old(unread)
      ensures answer.Got? ==>
                && readenCount == old(readenCount) + answer.count && answer.count <= |old(unread)|
                && packet[..readenCount] == old(packet[..readenCount]) + old(unread)[..answer.count]
                && unread == old(unread)[answer.count..]
    {
      answer := recv(n, |unread|);
      if answer.Got? {
        packet := Receive(packet, readenCount, unread[..answer.count]);
        readenCount := readenCount + answer.count;
        unread := unread[answer.count..];
      }
    }

    // Reading up to the end of the header, and sizing the buffer for the
    // packet it announces. More: the body may be read at once.
    method ReadHeader(recv: Kernel, ghost partial: Data) returns (thrown: bool, more: bool, ghost taken: Data)
      requires Valid() && KernelOk(recv) && readenCount < headerSize && partial == packet[..readenCount]
      modifies this`packet, this`readenCount, this`unread
      ensures headerSize <= |packet| && readenCount <= headerSize && packet[..readenCount] == partial + taken
      ensures taken + unread == old(unread)
      ensures !more ==> readenCount < headerSize
      ensures var answer := recv(headerSize - old(readenCount), |old(unread)|);
              |taken| == Count(answer) && thrown == (answer.WouldBlock? || answer.Failed?)
      ensures more ==> !thrown && readenCount == headerSize && |packet| == onHeader(packet[..headerSize])
    {
      var answer := Fill(recv, headerSize - readenCount);
      if !answer.Got? {
        return !answer.Interrupted?, false, [];
      }
      taken := old(unread)[..answer.count];
      if readenCount < headerSize {
        return false, false, taken;
      }
      var packetSize := onHeader(packet[..headerSize]);
      packet := Resize(packet, packetSize);
      return false, true, taken;
    }

    // Reading on in the body.
    method ReadBody(recv: Kernel, ghost partial: Data, ghost taken: Data) returns (answer: Recv, ghost more: Data)
      requires KernelOk(recv) && headerSize <= readenCount <= |packet| && packet[..readenCount] == partial + taken
      modifies this`packet, this`readenCount, this`unread
      ensures |packet| == |old(packet)| && old(readenCount) <= readenCount <= |packet|
      ensures packet[..headerSize] == old(packet)[..headerSize]
      ensures packet[..readenCount] == partial + (taken + more) && more + unread == old(unread)
      ensures answer == recv(|packet| - old(readenCount), |old(unread)|)
      ensures |more| == Count(answer)
    {
      answer := Fill(recv, |packet| - readenCount);
      more := [];
      if answer.Got? {
        more := old(unread)[..answer.count];
      }
      assert packet[..readenCount] == old(packet)[..old(readenCount)] + more;
      assert packet[..headerSize] == packet[..readenCount][..headerSize];
    }

    // One call of the reactor, with at most two calls of recv. However much
    // they return, all of it is taken from the stream, once, and the packets
    // delivered are those of the stream consumed.
    method Read(recv1: Kernel, recv2: Kernel) returns (thrown: bool)
      requires Valid() && KernelOk(recv1) && KernelOk(recv2)
      modifies this
      ensures Valid() && consumed + unread == old(consumed) + old(unread)
      ensures (|consumed| - |old(consumed)|, thrown) ==
              old(Taken(headerSize, onHeader, Partial(), unread, recv1, recv2))
    {
      hide Parse, Taken, SizerOk, KernelOk;
      ghost var partial, arrived := Partial(), unread;
      ghost var taken: Data := [];
      thrown := false;
      if readenCount < headerSize {
        var more;
        thrown, more, taken := ReadHeader(recv1, partial);
        TakenHeader(headerSize, onHeader, partial, taken, arrived, recv1, recv2);
        if !more {
          Pause(taken, partial, arrived);
          return;
        }
        assert packet[..headerSize] == partial + taken;
      } else {
        assert partial + taken == partial;
        TakenBody(headerSize, onHeader, partial, arrived, recv1, recv2);
      }
      if |packet| != headerSize {
        var answer;
        ghost var bytes;
        answer, bytes := ReadBody(recv2, partial, taken);
        assert taken + bytes + unread == arrived;
        taken := taken + bytes;
        if !answer.Got? {
          Pause(taken, partial, arrived);
          return answer.Failed?;
        }
      }
      if readenCount == |packet| {
        Deliver(taken, partial, arrived);
      } else {
        Pause(taken, partial, arrived);
      }
    }

    method Deliver(ghost taken: Data, ghost partial: Data, ghost arrived: Data)
      requires SizerOk(headerSize, onHeader) && Parse(headerSize, onHeader, consumed) == Parsed(delivered, partial)
      requires readenCount == |packet| && packet[..readenCount] == partial + taken && taken + unread == arrived
      requires headerSize <= |packet| == onHeader(packet[..headerSize])
      modifies this`consumed, this`delivered, this`readenCount
      ensures Valid() && consumed == old(consumed) + taken && consumed + unread == old(consumed) + arrived
    {
      hide Parse;
      assert packet == partial + taken;
      ReadPacket(headerSize, onHeader, consumed, delivered, partial, taken);
      consumed := consumed + taken;
      delivered := delivered + [packet];
      readenCount := 0;
    }

    // Returning in the middle of a packet.
    ghost method Pause(taken: Data, partial: Data, arrived: Data)
      requires SizerOk(headerSize, onHeader) && Parse(headerSize, onHeader, consumed) == Parsed(delivered, partial)
      requires readenCount <= |packet| && packet[..readenCount] == partial + taken && headerSize <= |packet|
      requires taken + unread == arrived
      requires readenCount >= headerSize ==> readenCount < |packet| == onHeader(packet[..headerSize])
      modifies this`consumed
      ensures Valid() && consumed == old(consumed) + taken && consumed + unread == old(consumed) + arrived
    {
      hide Parse;
      assert readenCount >= headerSize ==> packet[..headerSize] == (partial + taken)[..headerSize];
      ReadSome(headerSize, onHeader, consumed, delivered, partial, taken);
      consumed := consumed + taken;
    }
  }

  // The bytes taken do not complete the packet being read ...
  lemma ReadSome(header: nat, size: Sizer, consumed: Data, delivered: seq<Data>, partial: Data, taken: Data)
    requires SizerOk(header, size) && Parse(header, size, consumed) == Parsed(delivered, partial)
    requires !Complete(header, size, partial + taken)
    ensures Parse(header, size, consumed + taken) == Parsed(delivered, partial + taken)
  {
    hide Parse;
    ParseMore(header, size, consumed, taken);
    ParseStep(header, size, partial + taken);
    assert delivered + [] == delivered;
  }

  // ... or complete it exactly.
  lemma ReadPacket(header: nat, size: Sizer, consumed: Data, delivered: seq<Data>, partial: Data, taken: Data)
    requires SizerOk(header, size) && Parse(header, size, consumed) == Parsed(delivered, partial)
    requires |partial + taken| >= header && size((partial + taken)[..header]) == |partial + taken|
    ensures Parse(header, size, consumed + taken) == Parsed(delivered + [partial + taken], [])
  {
    hide Parse;
    var whole := partial + taken;
    ParseMore(header, size, consumed, taken);
    ParseStep(header, size, whole);
    assert whole[..|whole|] == whole && whole[|whole|..] == [];
    ParseStep(header, size, []);
  }
}
