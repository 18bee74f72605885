/**
 Both ends of the control connection as they are written: each overwrites one 16-byte
 buffer in place and moves whole messages between it and the socket.
 */
module CtrlEndpoints {
  import opened Bytes
  import opened CtrlMessages
  import opened Counting
  import opened KvPool
  import opened TcpStream

  predicate IsCtrlBuf(h: BufferHandle) {
    h.addr != null && h.size == BUFFER == h.addr.Length
  }

  method PutInt(buf: array<Byte>, at: nat, x: int)
    requires at + 4 <= buf.Length
    modifies buf
    ensures buf[..] == Put(old(buf[..]), at, EncodeInt(x))
  {
    Store(buf, at, EncodeInt(x));
  }

  /** Stores both words of a request. */
  method PutRequest(buf: array<Byte>, req: Request)
    requires buf.Length == BUFFER
    modifies buf
    ensures buf[..8] == RequestBytes(req)
  {
    PutInt(buf, 0, req.kind);
    ghost var first := buf[..];
    PutInt(buf, 4, req.arg);
    assert buf[..][0..4] == buf[..][..4] == first[..4] == first[0..4] == EncodeInt(req.kind);
    assert buf[..][4..8] == EncodeInt(req.arg);
    assert buf[..8] == buf[..][0..4] + buf[..][4..8];
  }

  function RequestStream(reqs: seq<Request>): seq<Byte> {
    if reqs == [] then [] else RequestStream(reqs[..|reqs| - 1]) + RequestBytes(reqs[|reqs| - 1])
  }

  function ReplyStream(replies: seq<int>): seq<Byte> {
    if replies == [] then [] else ReplyStream(replies[..|replies| - 1]) + EncodeInt(replies[|replies| - 1])
  }

  // ----- The client

  /** One request and the reply to it. On success the request has gone out whole and the
      next four bytes of the stream have come in as the result. */
  method Exchange(fd: Socket, h: BufferHandle, req: Request) returns (r: int, value: int)
    requires IsCtrlBuf(h)
    modifies fd, h.addr
    ensures r == 0 || r == -1
    ensures r == 0 ==> && fd.sent == old(fd.sent) + RequestBytes(req)
                       && |old(fd.incoming)| >= 4 && fd.incoming == old(fd.incoming)[4..]
                       && value == DecodeInt(old(fd.incoming)[..4])
  {
    value := 0;
    PutRequest(h.addr, req);
    r := SendAsync(fd, h, 8, 0);
    if r != 0 {
      return;
    }
    assert h.addr[0..8] == h.addr[..8];
    r := RecvAsync(fd, h, 4, 0);
    if r != 0 {
      return;
    }
    value := DecodeInt(h.addr[0..4]);
  }

  method KvAlloc(fd: Socket, h: BufferHandle) returns (r: int, slot: int)
    requires IsCtrlBuf(h)
    modifies fd, h.addr
    ensures r == 0 || r == -1
    ensures r == 0 ==> && fd.sent == old(fd.sent) + RequestBytes(Request(ALLOC, 0))
                       && |old(fd.incoming)| >= 4 && fd.incoming == old(fd.incoming)[4..]
                       && slot == DecodeInt(old(fd.incoming)[..4])
  {
    r, slot := Exchange(fd, h, Request(ALLOC, 0));
  }

  /** Any reply but 0 is an error. */
  method KvFree(fd: Socket, h: BufferHandle, slot: int) returns (r: int)
    requires IsCtrlBuf(h)
    modifies fd, h.addr
    ensures r == 0 || r == -1
    ensures r == 0 ==> && fd.sent == old(fd.sent) + RequestBytes(Request(FREE, slot))
                       && |old(fd.incoming)| >= 4 && fd.incoming == old(fd.incoming)[4..]
                       && DecodeInt(old(fd.incoming)[..4]) == 0
  {
    var ack: int;
    r, ack := Exchange(fd, h, Request(FREE, slot));
    if r == 0 && ack != 0 {
      return -1;
    }
  }

  /** The META exchange seen from the client. */
  method AskMeta(fd: Socket, h: BufferHandle) returns (r: int, slots: int, slotSize: nat)
    requires IsCtrlBuf(h)
    modifies fd, h.addr
    ensures r == 0 || r == -1
    ensures r == 0 ==> && fd.sent == old(fd.sent) + EncodeInt(META)
                       && |old(fd.incoming)| >= BUFFER && fd.incoming == old(fd.incoming)[BUFFER..]
                       && slots == DecodeInt(old(fd.incoming)[0..4])
                       && slotSize == Decode(old(fd.incoming)[8..16])
  {
    slots, slotSize := 0, 0;
    PutInt(h.addr, 0, META);
    r := SendAsync(fd, h, 4, 0);
    if r != 0 {
      return;
    }
    r := RecvAsync(fd, h, BUFFER, 0);
    if r != 0 {
      return;
    }
    MetaComesWhole(h.addr[..], old(fd.incoming));
    slots, slotSize := DecodeInt(h.addr[0..4]), Decode(h.addr[8..16]);
    assert h.addr[0..4] == h.addr[..][0..4] && h.addr[8..16] == h.addr[..][8..16];
  }

  lemma MetaComesWhole(buf: seq<Byte>, coming: seq<Byte>)
    requires |coming| >= BUFFER == |buf| && buf[0..BUFFER] == coming[..BUFFER]
    ensures buf[0..4] == coming[0..4] && buf[8..16] == coming[8..16]
  {
    assert buf[0..BUFFER][0..4] == buf[0..4] && coming[..BUFFER][0..4] == coming[0..4];
    assert buf[0..BUFFER][8..16] == buf[8..16] && coming[..BUFFER][8..16] == coming[8..16];
  }

  // ----- The server

  /** Receives a request whole into the buffer; `reqs` have been received before it. */
  method NextRequest(fd: Socket, h: BufferHandle, ghost reqs: seq<Request>) returns (r: int, ghost req: Request)
    requires IsCtrlBuf(h)
    modifies fd`incoming, h.addr
    ensures r == 0 ==> && req == RequestIn(h.addr[..]) && |fd.incoming| < |old(fd.incoming)|
                       && RequestStream(reqs + [req]) + fd.incoming == RequestStream(reqs) + old(fd.incoming)
  {
    r := RecvAsync(fd, h, 8, 0);
    req := RequestIn(h.addr[..]);
    if r == 0 {
      RequestComesWhole(old(fd.incoming), h.addr[..], reqs);
    }
  }

  /** Sends the reply that stands in the buffer. */
  method SendReply(fd: Socket, h: BufferHandle, ghost reply: int) returns (r: int)
    requires IsCtrlBuf(h) && h.addr[0..4] == EncodeInt(reply)
    modifies fd`sent
    ensures if r == 0 then fd.sent == old(fd.sent) + EncodeInt(reply) else fd.sent < old(fd.sent) + EncodeInt(reply)
  {
    r := SendAsync(fd, h, 4, 0);
  }

  class PoolServer {
    const slots: nat
    const slotSize: nat
    var free: seq<int>

    constructor (numSlots: nat, size: nat)
      ensures slots == numSlots && slotSize == size && free == []
    {
      slots, slotSize, free := numSlots, size, [];
    }

    method FillFreeList()
      requires free == []
      modifies this`free
      ensures free == Upto(slots)
    {
      var i := 0;
      while i < slots
        invariant 0 <= i <= slots && free == Upto(slots)[..i]
      {
        free := free + [i];
        i := i + 1;
      }
      assert Upto(slots)[..i] == Upto(slots);
    }

    /** The META exchange seen from the server: it succeeds only on a META request, and
        then what has gone out tells the client the pool's dimensions. */
    method AnswerMeta(fd: Socket, h: BufferHandle) returns (r: int)
      requires IsCtrlBuf(h) && IsInt(slots) && slotSize < Span(8)
      modifies fd, h.addr
      ensures r == 0 || r == -1
      ensures r == 0 ==> && |old(fd.incoming)| >= 4 && fd.incoming == old(fd.incoming)[4..]
                         && DecodeInt(old(fd.incoming)[..4]) == META
                         && |fd.sent| == |old(fd.sent)| + BUFFER && old(fd.sent) <= fd.sent
                         && DecodeInt(fd.sent[|old(fd.sent)|..][0..4]) == slots
                         && Decode(fd.sent[|old(fd.sent)|..][8..16]) == slotSize
    {
      r := RecvAsync(fd, h, 4, 0);
      if r != 0 {
        return;
      }
      if DecodeInt(h.addr[0..4]) != META {
        return -1;
      }
      PutInt(h.addr, 0, slots);
      ghost var first := h.addr[..];
      Store(h.addr, 8, Encode(slotSize, 8));
      MetaStands(first, h.addr[..], slots, slotSize);
      r := SendAsync(fd, h, BUFFER, 0);
      assert r == 0 ==> fd.sent[|old(fd.sent)|..] == h.addr[..];
    }

    /** Treats the request in the buffer and puts the reply in its place. */
    method Treat(h: BufferHandle) returns (ok: bool)
      requires IsCtrlBuf(h)
      modifies this`free, h.addr
      ensures match Handle(slots, old(free), RequestIn(old(h.addr[..])))
              case Refused => !ok && free == old(free)
              case Reply(value, free') => ok && free == free' && h.addr[0..4] == EncodeInt(value)
    {
      var msg := DecodeInt(h.addr[0..4]);
      assert h.addr[0..4] == h.addr[..][0..4] && h.addr[4..8] == h.addr[..][4..8];
      var reply := 0;
      if msg == ALLOC {
        reply := -1;
        if free != [] {
          reply := free[|free| - 1];
          free := free[..|free| - 1];
        }
      } else if msg == FREE {
        var slot := DecodeInt(h.addr[4..8]);
        if slot < 0 || slot >= slots {
          return false;
        }
        free := free + [slot];
      } else {
        return false;
      }
      PutInt(h.addr, 0, reply);
      return true;
    }

    /** The serving loop. `reqs` are the requests taken whole from the stream. The server
        returns 0 when no further request comes in, and then it has treated all of `reqs`
        and sent every reply; it returns -1 on a request it refuses, or when a reply
        cannot be sent. */
    method Loop(fd: Socket, h: BufferHandle) returns (code: int, ghost reqs: seq<Request>)
      requires IsCtrlBuf(h)
      modifies this`free, fd, h.addr
      ensures RequestStream(reqs) <= old(fd.incoming)
      ensures free == Serve(slots, old(free), reqs).free
      ensures code == 0 ==> && Serve(slots, old(free), reqs).clean
                            && fd.sent == old(fd.sent) + ReplyStream(Serve(slots, old(free), reqs).replies)
      ensures code != 0 ==> && code == -1 && reqs != []
                            && if Serve(slots, old(free), reqs).clean then
                                 fd.sent < old(fd.sent) + ReplyStream(Serve(slots, old(free), reqs).replies)
                               else
                                 fd.sent == old(fd.sent) + ReplyStream(Serve(slots, old(free), reqs).replies)
    {
      reqs := [];
      ghost var replies: seq<int> := [];
      while true
        invariant RequestStream(reqs) + fd.incoming == old(fd.incoming)
        invariant Serve(slots, old(free), reqs) == Service(replies, free, true)
        invariant fd.sent == old(fd.sent) + ReplyStream(replies)
        decreases |fd.incoming|
      {
        ghost var req: Request;
        var r: int;
        r, req := NextRequest(fd, h, reqs);
        if r != 0 {
          return 0, reqs;
        }
        ServeMore(slots, old(free), reqs, req);
        reqs := reqs + [req];
        var ok := Treat(h);
        if !ok {
          return -1, reqs;
        }
        ghost var reply := Handle(slots, Serve(slots, old(free), reqs[..|reqs| - 1]).free, req).value;
        ReplyGoesOut(old(fd.sent), replies, reply);
        replies := replies + [reply];
        r := SendReply(fd, h, reply);
        if r != 0 {
          return -1, reqs;
        }
      }
    }
  }

  lemma MetaStands(first: seq<Byte>, whole: seq<Byte>, slots: nat, slotSize: nat)
    requires |first| == BUFFER && IsInt(slots) && slotSize < Span(8)
    requires first[0..4] == EncodeInt(slots) && whole == Put(first, 8, Encode(slotSize, 8))
    ensures DecodeInt(whole[0..4]) == slots && Decode(whole[8..16]) == slotSize
  {
    assert whole[0..4] == whole[..8][0..4] == first[..8][0..4] == first[0..4];
    DecodeEncodeInt(slots);
    DecodeEncode(slotSize, 8);
  }

  /** The eight bytes received are the bytes of the request they are read as. */
  lemma RequestComesWhole(coming: seq<Byte>, buf: seq<Byte>, reqs: seq<Request>)
    requires |coming| >= 8 && |buf| == BUFFER && buf[0..8] == coming[..8]
    ensures RequestBytes(RequestIn(buf)) == coming[..8]
    ensures RequestStream(reqs + [RequestIn(buf)]) + coming[8..] == RequestStream(reqs) + coming
  {
    var req := RequestIn(buf);
    EncodeDecodeInt(buf[0..4]);
    EncodeDecodeInt(buf[4..8]);
    Extend(buf, 0, 4, 8);
    assert (reqs + [req])[..|reqs|] == reqs;
    assert coming == coming[..8] + coming[8..];
  }

  lemma ReplyGoesOut(before: seq<Byte>, replies: seq<int>, reply: int)
    ensures before + ReplyStream(replies + [reply]) == before + ReplyStream(replies) + EncodeInt(reply)
  {
    assert (replies + [reply])[..|replies|] == replies;
  }

  /** What the server makes of the stream the client wrote: the same requests. */
  lemma {:induction false} StreamsAgree(a: seq<Request>, b: seq<Request>)
    requires RequestStream(a) <= RequestStream(b)
    requires forall k | 0 <= k < |a| :: IsInt(a[k].kind) && IsInt(a[k].arg)
    requires forall k | 0 <= k < |b| :: IsInt(b[k].kind) && IsInt(b[k].arg)
    ensures a <= b
    decreases |b|
  {
    StreamLength(a);
    StreamLength(b);
    if |a| == |b| {
      if a != [] {
        var x, y := a[|a| - 1], b[|b| - 1];
        StreamLength(a[..|a| - 1]);
        StreamLength(b[..|b| - 1]);
        var n := |RequestStream(b[..|b| - 1])|;
        assert RequestStream(a)[..n] == RequestStream(a[..|a| - 1]);
        assert RequestStream(b)[..n] == RequestStream(b[..|b| - 1]);
        assert RequestStream(a)[n..] == RequestBytes(x) && RequestStream(b)[n..] == RequestBytes(y);
        StreamsAgree(a[..|a| - 1], b[..|b| - 1]);
        SameRequest(x, y);
        assert a == a[..|a| - 1] + [x] && b == b[..|b| - 1] + [y];
      }
    } else {
      StreamLength(b[..|b| - 1]);
      var n := |RequestStream(b[..|b| - 1])|;
      assert RequestStream(b)[..n] == RequestStream(b[..|b| - 1]);
      assert RequestStream(a) <= RequestStream(b[..|b| - 1]);
      StreamsAgree(a, b[..|b| - 1]);
    }
  }

  lemma SameRequest(x: Request, y: Request)
    requires RequestBytes(x) == RequestBytes(y)
    requires IsInt(x.kind) && IsInt(x.arg) && IsInt(y.kind) && IsInt(y.arg)
    ensures x == y
  {
    assert RequestBytes(x)[..4] == EncodeInt(x.kind) && RequestBytes(y)[..4] == EncodeInt(y.kind);
    assert RequestBytes(x)[4..] == EncodeInt(x.arg) && RequestBytes(y)[4..] == EncodeInt(y.arg);
    DecodeEncodeInt(x.kind);
    DecodeEncodeInt(x.arg);
    DecodeEncodeInt(y.kind);
    DecodeEncodeInt(y.arg);
  }

  lemma {:induction false} StreamLength(reqs: seq<Request>)
    ensures |RequestStream(reqs)| == 8 * |reqs|
    decreases |reqs|
  {
    if reqs != [] {
      StreamLength(reqs[..|reqs| - 1]);
    }
  }
}
