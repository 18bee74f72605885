/**
 What the control connection carries, shared by both ends.
 */
module CtrlMessages {
  import opened Bytes
  import opened KvPool

  /** The request that opens the connection. */
  const META: int := 2

  /** The size of the control buffer, and of the META reply that fills it. */
  const BUFFER: nat := 16

  function RequestBytes(req: Request): (b: seq<Byte>)
    ensures |b| == 8
  {
    EncodeInt(req.kind) + EncodeInt(req.arg)
  }

  /** The request that lies in a control buffer. */
  function RequestIn(buf: seq<Byte>): Request
    requires |buf| == BUFFER
  {
    Request(DecodeInt(buf[0..4]), DecodeInt(buf[4..8]))
  }
}
