/** The byte queue of src/utils.rs and the two-stage outbound path built on it
    (send_frame in src/client.rs, flush_conn in src/loop.rs). */
module Stream {
  import opened Bytes

  class Stream {
    var data: seq<byte>
    const compactThreshold: nat
    var dataOffset: nat
    var readOffset: nat
    var committedOffset: nat

    ghost predicate Valid()
      reads this
    {
      dataOffset <= readOffset <= committedOffset == dataOffset + |data|
    }

    /** The queue: what has been written and not yet marked as read. */
    ghost function View(): seq<byte>
      requires Valid()
      reads this
    {
      data[readOffset - dataOffset..committedOffset - dataOffset]
    }

    constructor (compactThreshold: nat)
      ensures Valid() && View() == []
    {
      this.compactThreshold := compactThreshold;
      data, dataOffset, readOffset, committedOffset := [], 0, 0, 0;
    }

    /** Reading past the end stops at the end. */
    method MarkRead(n: nat)
      requires Valid()
      modifies this
      ensures Valid() && View() == old(View())[if n < |old(View())| then n else |old(View())|..]
      ensures readOffset - dataOffset <= compactThreshold
    {
      var end := dataOffset + |data|;
      readOffset := if readOffset + n < end then readOffset + n else end;
      Compact();
    }

    method MarkReadAll()
      requires Valid()
      modifies this
      ensures Valid() && View() == []
      ensures readOffset - dataOffset <= compactThreshold
    {
      readOffset := committedOffset;
      Compact();
    }

    method Data() returns (s: seq<byte>)
      requires Valid()
      ensures s == View()
    {
      s := data[readOffset - dataOffset..committedOffset - dataOffset];
    }

    method Write(bytes: seq<byte>)
      requires Valid()
      modifies this
      ensures Valid() && View() == old(View()) + bytes
    {
      data := data + bytes;
      committedOffset := dataOffset + |data|;
    }

    /** Drops bytes already read once there are more of them than the threshold. */
    method Compact()
      requires Valid()
      modifies this
      ensures Valid() && View() == old(View())
      ensures readOffset - dataOffset <= compactThreshold
    {
      var garbage := readOffset - dataOffset;
      if garbage > compactThreshold {
        data := data[garbage..];
        dataOffset := readOffset;
      }
    }
  }

  /** What one write call on the socket can do with the bytes it is offered. */
  datatype WriteResult = Wrote(n: nat) | WouldBlock | Interrupted | Failed

  /** A socket that takes at least a byte every time. */
  predicate Willing(socket: seq<WriteResult>) {
    forall i :: 0 <= i < |socket| ==> socket[i].Wrote? && socket[i].n > 0
  }

  class Outbound {
    const outbox: Stream
    const writeStream: Stream
    var connected: bool
    /** Everything handed to send_frame, and everything the socket has taken. */
    ghost var sent: seq<byte>
    ghost var accepted: seq<byte>

    ghost predicate Valid()
      reads this, outbox, writeStream
    {
      && outbox != writeStream && outbox.Valid() && writeStream.Valid()
      && accepted + writeStream.View() + outbox.View() == sent
    }

    constructor (threshold: nat)
      ensures Valid() && fresh(outbox) && fresh(writeStream) && !connected
      ensures sent == [] && accepted == []
    {
      outbox := new Stream(threshold);
      writeStream := new Stream(threshold);
      connected := false;
      sent, accepted := [], [];
    }

    method SendFrame(frame: seq<byte>)
      requires Valid()
      modifies this`sent, outbox
      ensures Valid() && sent == old(sent) + frame
    {
      ghost var before := outbox.View();
      outbox.Write(frame);
      assert accepted + writeStream.View() + (before + frame) == accepted + writeStream.View() + before + frame;
      sent := sent + frame;
    }

    /** One write call: the socket takes at most what it is offered. */
    method Offer(buf: seq<byte>, n: nat)
      requires Valid() && buf == writeStream.View()
      modifies this`accepted, writeStream
      ensures Valid() && old(accepted) <= accepted
      ensures |writeStream.View()| == |old(writeStream.View())| - (if n < |buf| then n else |buf|)
    {
      ghost var m := if n < |buf| then n else |buf|;
      ghost var rest := outbox.View();
      writeStream.MarkRead(n);
      assert buf == buf[..m] + buf[m..];
      assert accepted + (buf[..m] + buf[m..]) + rest == accepted + buf[..m] + buf[m..] + rest;
      accepted := accepted + buf[..m];
    }

    /** Offers the write stream until the socket stops taking bytes. */
    method WriteOut(socket: seq<WriteResult>) returns (failed: bool)
      requires Valid()
      modifies this`accepted, writeStream
      ensures Valid() && old(accepted) <= accepted
      ensures Willing(socket) && |socket| >= |old(writeStream.View())| ==> writeStream.View() == [] && !failed
    {
      failed := false;
      for i := 0 to |socket|
        invariant Valid() && old(accepted) <= accepted
        invariant Willing(socket) ==> |writeStream.View()| + i <= |old(writeStream.View())|
      {
        var buf := writeStream.Data();
        if |buf| == 0 {
          return;
        }
        match socket[i] {
          case Wrote(n) =>
            if n == 0 {
              return;
            }
            Offer(buf, n);
          case WouldBlock => return;
          case Interrupted =>
          case Failed =>
            failed := true;
            return;
        }
      }
    }

    /** Moves the outbox behind what is still unwritten and offers it to the socket.  Nothing
        is lost, repeated or reordered, however the socket cuts it up: Valid() still holds, and
        what the socket has is a prefix of what was sent. */
    method FlushConn(socket: seq<WriteResult>) returns (failed: bool)
      requires Valid()
      modifies this`accepted, outbox, writeStream
      ensures Valid() && old(accepted) <= accepted <= sent
      ensures connected ==> outbox.View() == []
      ensures !connected ==> accepted == old(accepted) && outbox.View() == old(outbox.View()) && !failed
      ensures connected && Willing(socket) && |socket| >= |sent| - |old(accepted)| ==> accepted == sent && !failed
    {
      failed := false;
      assert accepted <= sent;
      if !connected {
        return;
      }
      var pending := outbox.Data();
      ghost var before := writeStream.View();
      writeStream.Write(pending);
      outbox.MarkReadAll();
      assert accepted + (before + pending) + [] == accepted + before + pending;
      failed := WriteOut(socket);
      assert accepted + writeStream.View() + [] == sent;
    }
  }
}
