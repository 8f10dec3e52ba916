// The queue of outgoing packets: framework/communication/tcp_writer.cpp.
module TcpWriters {
  import opened Cipher
  import opened TcpReaders

  // What send answers.
  datatype Send = Sent(count: nat) | Again | SendInterrupted | SendFailed

  type Socket = nat -> Send

  ghost predicate SocketOk(send: Socket) {
    forall n: nat :: send(n).Sent? ==> send(n).count <= n
  }

  lemma {:induction false} ConcatMore(packets: seq<Data>, p: Data)
    ensures Concat(packets + [p]) == Concat(packets) + p
  {
    if packets == [] {
      assert packets + [p] == [p];
      assert [p][1..] == [];
    } else {
      ConcatMore(packets[1..], p);
      assert (packets + [p])[1..] == packets[1..] + [p];
    }
  }

  // Sending n more bytes of the front packet.
  lemma Advance(packets: seq<Data>, written: nat, n: nat, sent: Data, accepted: Data)
    requires packets != [] && written + n <= |packets[0]| && written <= |Concat(packets)|
    requires sent + Concat(packets)[written..] == accepted
    ensures written + n <= |Concat(packets)|
    ensures var queued := Concat(packets)[written..];
            n <= |queued| && sent + queued[..n] + Concat(packets)[written + n..] == accepted
    ensures written + n == |packets[0]| ==> Concat(packets)[written + n..] == Concat(packets[1..])
  {
    assert Concat(packets) == packets[0] + Concat(packets[1..]);
    hide Concat;
    var queued := Concat(packets)[written..];
    assert queued == queued[..n] + queued[n..];
    assert queued[n..] == Concat(packets)[written + n..];
  }

  class TcpWriter {
    var packets: seq<Data>      // m_packets
    var writtenCount: nat
    var registered: bool        // WriteCB is in the reactor's write set
    ghost var accepted: Data    // all packets, in the order of the calls of Write
    ghost var sent: Data        // all bytes the socket has taken

    // Registered exactly while there is something to send; everything
    // accepted is sent or still queued, in order.
    ghost predicate Valid()
      reads this
    {
      && (registered <==> packets != [])
      && (packets == [] ==> writtenCount == 0)
      && (packets != [] ==> if packets[0] == [] then writtenCount == 0 else writtenCount < |packets[0]|)
      && writtenCount <= |Concat(packets)|
      && sent + Concat(packets)[writtenCount..] == accepted
    }

    constructor ()
      ensures Valid() && accepted == [] && sent == [] && packets == []
    {
      packets, writtenCount, registered, accepted, sent := [], 0, false, [], [];
    }

    method Write(packet: Data)
      requires Valid()
      modifies this
      ensures Valid() && accepted == old(accepted) + packet && sent == old(sent)
      ensures packets == old(packets) + [packet] && writtenCount == old(writtenCount)
    {
      if packets == [] {
        registered := true;
      }
      ConcatMore(packets, packet);
      ghost var queued := Concat(packets);
      assert (queued + packet)[writtenCount..] == queued[writtenCount..] + packet;
      packets := packets + [packet];
      accepted := accepted + packet;
    }

    // The socket is ready: send what is left of the front packet.
    method WriteCB(send: Socket) returns (thrown: bool, n: nat)
      requires Valid() && registered && SocketOk(send)
      modifies this
      ensures Valid() && accepted == old(accepted)
      ensures var answer := send(|old(packets)[0]| - old(writtenCount));
              n == (if answer.Sent? then answer.count else 0) && thrown == answer.SendFailed?
      ensures n <= |Concat(old(packets))[old(writtenCount)..]|
      ensures sent == old(sent) + Concat(old(packets))[old(writtenCount)..][..n]
      ensures (packets == old(packets) && writtenCount == old(writtenCount) + n)
              || (packets == old(packets)[1..] && writtenCount == 0 && old(writtenCount) + n == |old(packets)[0]|)
    {
      assert Concat([]) == [];
      hide Concat;
      thrown, n := false, 0;
      var front := packets[0];
      assert Concat(packets)[writtenCount..][..0] == [] && sent + [] == sent;
      match send(|front| - writtenCount) {
        case Again => return;
        case SendInterrupted => return;
        case SendFailed => return true, 0;
        case Sent(count) => n := count;
      }
      Advance(packets, writtenCount, n, sent, accepted);
      sent := sent + Concat(packets)[writtenCount..][..n];
      writtenCount := writtenCount + n;
      if writtenCount == |front| {
        writtenCount := 0;
        packets := packets[1..];
        if packets == [] {
          registered := false;
        }
      }
    }
  }
}
