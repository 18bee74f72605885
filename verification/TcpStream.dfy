/**
 Whole messages over a byte stream: the TCP backend sends and receives exact lengths
 through calls that move as many bytes as the kernel happens to take or have.
 */
module TcpStream {
  import opened Bytes

  /** One end of a connection: `sent` is what has been handed to the kernel, `incoming`
      what the peer sends and has not been read yet. */
  class Socket {
    var sent: seq<Byte>
    var incoming: seq<Byte>

    constructor (peer: seq<Byte>)
      ensures sent == [] && incoming == peer
    {
      sent, incoming := [], peer;
    }

    /** Takes some of the bytes offered; zero or less means failure. */
    method Send(offered: seq<Byte>) returns (n: int)
      modifies this`sent
      ensures n <= |offered|
      ensures sent == old(sent) + (if n > 0 then offered[..n] else [])
    {
      n :| -1 <= n <= |offered|;
      if n > 0 {
        sent := sent + offered[..n];
      }
    }

    /** Yields some of the bytes there are; zero or less means failure or the end. */
    method Recv(most: nat) returns (n: int, got: seq<Byte>)
      modifies this`incoming
      ensures n <= most && n <= |old(incoming)|
      ensures |got| == (if n > 0 then n else 0) && old(incoming) == got + incoming
    {
      n :| -1 <= n <= most && n <= |incoming|;
      got := [];
      if n > 0 {
        got, incoming := incoming[..n], incoming[n..];
      }
    }
  }

  /** What has gone out of a stretch of the buffer, and the first bytes of what has not. */
  lemma SentMore(before: seq<Byte>, b: seq<Byte>, from: nat, mid: nat, to: nat, n: nat)
    requires from <= mid && mid + n <= to <= |b|
    ensures before + b[from..mid] + b[mid..to][..n] == before + b[from..mid + n]
  {
    assert b[mid..to][..n] == b[mid..mid + n];
    Extend(b, from, mid, mid + n);
  }

  lemma SentLess(before: seq<Byte>, b: seq<Byte>, from: nat, mid: nat, to: nat)
    requires from <= mid < to <= |b|
    ensures before <= before + b[from..mid] && before + b[from..mid] < before + b[from..to]
  {
    Extend(b, from, mid, to);
  }

  /** Sends `len` bytes of the buffer, or fails having sent fewer. */
  method SendAll(fd: Socket, buf: array<Byte>, offset: nat, len: nat) returns (r: int)
    requires offset + len <= buf.Length
    modifies fd`sent
    ensures r == 0 || r == -1
    ensures r == 0 ==> fd.sent == old(fd.sent) + buf[offset..offset + len]
    ensures r == -1 ==> old(fd.sent) <= fd.sent && fd.sent < old(fd.sent) + buf[offset..offset + len]
  {
    ghost var before, bytes := fd.sent, buf[..];
    var sent := 0;
    while sent < len
      invariant 0 <= sent <= len
      invariant fd.sent == before + bytes[offset..offset + sent]
    {
      assert buf[offset + sent..offset + len] == bytes[offset + sent..offset + len];
      var n := fd.Send(buf[offset + sent..offset + len]);
      if n <= 0 {
        SentLess(before, bytes, offset, offset + sent, offset + len);
        return -1;
      }
      SentMore(before, bytes, offset, offset + sent, offset + len, n);
      sent := sent + n;
    }
    return 0;
  }

  /** Copies received bytes into the buffer. */
  method Store(buf: array<Byte>, at: nat, bytes: seq<Byte>)
    requires at + |bytes| <= buf.Length
    modifies buf
    ensures buf[..] == Put(old(buf[..]), at, bytes)
  {
    forall k | 0 <= k < |bytes| {
      buf[at + k] := bytes[k];
    }
    assert buf[..at] == old(buf[..])[..at];
    assert buf[at..at + |bytes|] == bytes;
    assert buf[at + |bytes|..] == old(buf[..])[at + |bytes|..];
    assert buf[..] == buf[..at] + buf[at..at + |bytes|] + buf[at + |bytes|..];
  }

  lemma PutTwice(b: seq<Byte>, at: nat, x: seq<Byte>, y: seq<Byte>)
    requires at + |x| + |y| <= |b|
    ensures Put(Put(b, at, x), at + |x|, y) == Put(b, at, x + y)
  {
    var first := Put(b, at, x);
    assert first[..at + |x|] == b[..at] + x;
    assert first[at + |x| + |y|..] == b[at + |x| + |y|..];
  }

  lemma TakeMore(all: seq<Byte>, taken: nat, got: seq<Byte>, rest: seq<Byte>)
    requires taken <= |all| && all[taken..] == got + rest
    ensures taken + |got| <= |all| && all[..taken + |got|] == all[..taken] + got
    ensures all[taken + |got|..] == rest
  {
    assert all == all[..taken] + got + rest;
  }

  /** Receives exactly the next `len` bytes into the buffer and touches nothing else of it,
      or fails having received fewer. */
  method RecvAll(fd: Socket, buf: array<Byte>, offset: nat, len: nat) returns (r: int)
    requires offset + len <= buf.Length
    modifies fd`incoming, buf
    ensures r == 0 || r == -1
    ensures r == 0 ==> && len <= |old(fd.incoming)| && fd.incoming == old(fd.incoming)[len..]
                       && buf[..] == Put(old(buf[..]), offset, old(fd.incoming)[..len])
    ensures r == -1 ==> exists k :: && 0 <= k < len && k <= |old(fd.incoming)|
                                    && fd.incoming == old(fd.incoming)[k..]
                                    && buf[..] == Put(old(buf[..]), offset, old(fd.incoming)[..k])
  {
    var recved := 0;
    ghost var all := fd.incoming;
    while recved < len
      invariant 0 <= recved <= len && recved <= |all|
      invariant fd.incoming == all[recved..]
      invariant buf[..] == Put(old(buf[..]), offset, all[..recved])
    {
      var n, got := fd.Recv(len - recved);
      if n <= 0 {
        assert fd.incoming == all[recved..];
        return -1;
      }
      Store(buf, offset + recved, got);
      PutTwice(old(buf[..]), offset, all[..recved], got);
      TakeMore(all, recved, got, fd.incoming);
      recved := recved + n;
    }
    return 0;
  }

  // ----- The transport's calls

  /** A registered buffer; `size` is what was registered. */
  datatype BufferHandle = BufferHandle(addr: array?<Byte>, size: nat)

  predicate Registered(h: BufferHandle) {
    h.addr == null || h.size <= h.addr.Length
  }

  /** May this stretch of the buffer be sent or received? */
  predicate Accepts(h: BufferHandle, len: nat, offset: nat) {
    len != 0 && h.addr != null && len + offset <= h.size
  }

  method SendAsync(fd: Socket, h: BufferHandle, len: nat, offset: nat) returns (r: int)
    requires Registered(h)
    modifies fd`sent
    ensures r == 0 ==> Accepts(h, len, offset) && fd.sent == old(fd.sent) + h.addr[offset..offset + len]
    ensures r != 0 ==> r == -1
    ensures r != 0 && Accepts(h, len, offset) ==>
              old(fd.sent) <= fd.sent && fd.sent < old(fd.sent) + h.addr[offset..offset + len]
    ensures !Accepts(h, len, offset) ==> r == -1 && fd.sent == old(fd.sent)
  {
    if len == 0 || h.addr == null {
      return -1;
    }
    if len + offset > h.size {
      return -1;
    }
    r := SendAll(fd, h.addr, offset, len);
  }

  method RecvAsync(fd: Socket, h: BufferHandle, len: nat, offset: nat) returns (r: int)
    requires Registered(h)
    modifies fd`incoming, if h.addr == null then {} else {h.addr}
    ensures r == 0 ==>
              && Accepts(h, len, offset) && len <= |old(fd.incoming)| && fd.incoming == old(fd.incoming)[len..]
              && h.addr[..] == Put(old(h.addr[..]), offset, old(fd.incoming)[..len])
    ensures r != 0 ==> r == -1
    ensures r != 0 && Accepts(h, len, offset) ==>
              exists k :: && 0 <= k < len && k <= |old(fd.incoming)|
                          && fd.incoming == old(fd.incoming)[k..]
                          && h.addr[..] == Put(old(h.addr[..]), offset, old(fd.incoming)[..k])
    ensures !Accepts(h, len, offset) ==>
              r == -1 && fd.incoming == old(fd.incoming) && (h.addr != null ==> h.addr[..] == old(h.addr[..]))
  {
    if len == 0 || h.addr == null {
      return -1;
    }
    if len + offset > h.size {
      return -1;
    }
    r := RecvAll(fd, h.addr, offset, len);
  }

  // ----- Framing by length alone

  function Concat(messages: seq<seq<Byte>>): seq<Byte> {
    if messages == [] then [] else messages[0] + Concat(messages[1..])
  }

  /** The chunks a reader gets that asks for these lengths in turn, or nothing if the stream
      is too short. */
  function Cut(stream: seq<Byte>, lengths: seq<nat>): (chunks: seq<seq<Byte>>) {
    if lengths == [] || |stream| < lengths[0] then []
    else [stream[..lengths[0]]] + Cut(stream[lengths[0]..], lengths[1..])
  }

  /** A reader that asks for lengths of its own choice gets the messages that were sent
      exactly when the lengths are theirs. */
  lemma {:induction false} AlignedReads(messages: seq<seq<Byte>>, lengths: seq<nat>)
    requires |lengths| == |messages|
    ensures Cut(Concat(messages), lengths) == messages <==>
            forall k | 0 <= k < |messages| :: |messages[k]| == lengths[k]
    decreases |messages|
  {
    if messages != [] {
      var stream := Concat(messages);
      if |messages[0]| == lengths[0] {
        assert stream[..lengths[0]] == messages[0] && stream[lengths[0]..] == Concat(messages[1..]);
        AlignedReads(messages[1..], lengths[1..]);
        if forall k | 0 <= k < |messages[1..]| :: |messages[1..][k]| == lengths[1..][k] {
          forall k | 0 <= k < |messages| ensures |messages[k]| == lengths[k] {
            if k > 0 {
              assert messages[k] == messages[1..][k - 1] && lengths[k] == lengths[1..][k - 1];
            }
          }
          assert Cut(stream, lengths) == [messages[0]] + messages[1..];
        } else {
          var k :| 0 <= k < |messages[1..]| && |messages[1..][k]| != lengths[1..][k];
          assert messages[k + 1] == messages[1..][k] && lengths[k + 1] == lengths[1..][k];
          assert Cut(stream, lengths)[1..] == Cut(Concat(messages[1..]), lengths[1..]);
        }
      } else if |stream| >= lengths[0] {
        assert |Cut(stream, lengths)[0]| == lengths[0];
      }
    }
  }
}
