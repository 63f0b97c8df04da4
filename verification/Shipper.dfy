/** One upload attempt (internal/agent/shipper.go). */
module Shipper {
  import opened Common
  import opened Protocol
  import opened JsonLines
  import opened BufferFile
  import opened BufferQueue

  const BATCH_LIMIT: nat := 500

  /** What came back for a post: a transport error, or a response's status code. */
  datatype Reply = TransportError | Status(code: int)

  datatype FlushError =
    | ReadFailed(why: ReadError) | PostFailed | UnexpectedStatus(code: int) | AckFailed(why: ReadError)

  class Shipper {
    const buf: Buffer

    constructor (buf: Buffer)
      ensures this.buf == buf
    {
      this.buf := buf;
    }

    /** Post the oldest unacked heartbeats; ack them on 200 and on nothing else. reply is the
        network's answer, should anything be posted. */
    method Flush(reply: Reply) returns (posted: seq<Heartbeat>, n: nat, error: Option<FlushError>)
      requires buf.Valid()
      modifies buf
      ensures buf.Valid()
      ensures match UnackedOf(buf.codec, old(buf.Contents()), BATCH_LIMIT)
              case Err(e) => posted == [] && error == Some(ReadFailed(e))
              case Ok(hs) => posted == hs && (hs == [] ==> error == None)
      ensures posted == [] || reply != Status(200) ==> buf.Contents() == old(buf.Contents()) && n == 0
      ensures posted != [] && reply == Status(200) ==>
                && buf.Contents() == Acked(buf.codec, old(buf.Contents()), |posted|).0
                && (error == None <==> Acked(buf.codec, old(buf.Contents()), |posted|).1 == None)
                && (error == None ==> n == |posted|)
      ensures posted != [] && reply != Status(200) ==> error.Some?
    {
      n := 0;
      var unacked := buf.Unacked(BATCH_LIMIT);
      match unacked
      case Err(e) =>
        posted, error := [], Some(ReadFailed(e));
      case Ok(hs) =>
        posted := hs;
        if |hs| == 0 {
          error := None;
        } else if reply.TransportError? {
          error := Some(PostFailed);
        } else if reply.code != 200 {
          error := Some(UnexpectedStatus(reply.code));
        } else {
          var failed := buf.Ack(|hs|);
          match failed
          case Some(e) =>
            error := Some(AckFailed(e));
          case None =>
            n, error := |hs|, None;
        }
    }
  }

  /** The file after one flush answered with 200. */
  function AfterFlush(c: Codec, f: File): File {
    match UnackedOf(c, f, BATCH_LIMIT)
    case Err(_) => f
    case Ok(hs) => Acked(c, f, |hs|).0
  }

  /** What such a flush leaves acked in the file. */
  function DoneAfterFlush(c: Codec, f: File, done: seq<Heartbeat>, queue: seq<Heartbeat>): seq<Heartbeat> {
    var batch := Take(queue, BATCH_LIMIT);
    if Compacts(c, f, queue, |batch|) then [] else done + batch
  }

  lemma FlushRemoves(c: Codec, f: File, done: seq<Heartbeat>, queue: seq<Heartbeat>)
    requires Holds(c, f, done, queue) && |queue| <= SCAN_ALL
    ensures Holds(c, AfterFlush(c, f), DoneAfterFlush(c, f, done, queue), Drop(queue, BATCH_LIMIT))
  {
    var batch := Take(queue, BATCH_LIMIT);
    UnackedRefines(c, f, done, queue, BATCH_LIMIT);
    if batch == [] {
      assert done + batch == done && Drop(queue, BATCH_LIMIT) == queue;
    } else {
      AckRefines(c, f, done, queue, |batch|);
      assert Take(queue, |batch|) == batch && Drop(queue, |batch|) == Drop(queue, BATCH_LIMIT);
    }
  }

  /** After k flushes in a row answered with 200. */
  function AfterFlushes(c: Codec, f: File, k: nat): File {
    if k == 0 then f else AfterFlush(c, AfterFlushes(c, f, k - 1))
  }

  function DropBatches(queue: seq<Heartbeat>, k: nat): seq<Heartbeat> {
    if k == 0 then queue else Drop(DropBatches(queue, k - 1), BATCH_LIMIT)
  }

  function DoneAfterFlushes(c: Codec, f: File, done: seq<Heartbeat>, queue: seq<Heartbeat>, k: nat): seq<Heartbeat> {
    if k == 0 then done
    else DoneAfterFlush(c, AfterFlushes(c, f, k - 1), DoneAfterFlushes(c, f, done, queue, k - 1),
                        DropBatches(queue, k - 1))
  }

  lemma {:induction false} FlushesRemove(c: Codec, f: File, done: seq<Heartbeat>, queue: seq<Heartbeat>, k: nat)
    requires Holds(c, f, done, queue) && |queue| <= SCAN_ALL
    ensures Holds(c, AfterFlushes(c, f, k), DoneAfterFlushes(c, f, done, queue, k), DropBatches(queue, k))
    ensures |DropBatches(queue, k)| <= SCAN_ALL
  {
    if k > 0 {
      FlushesRemove(c, f, done, queue, k - 1);
      FlushRemoves(c, AfterFlushes(c, f, k - 1), DoneAfterFlushes(c, f, done, queue, k - 1), DropBatches(queue, k - 1));
    }
  }

  lemma {:induction false} BatchesLeft(queue: seq<Heartbeat>, k: nat)
    ensures |DropBatches(queue, k)| == if 500 * k < |queue| then |queue| - 500 * k else 0
  {
    if k > 0 {
      BatchesLeft(queue, k - 1);
    }
  }

  /** With no appends, a queue of n is empty after ceil(n / 500) successful flushes, not sooner. */
  lemma {:induction false} FlushesEmptyTheQueue(c: Codec, f: File, done: seq<Heartbeat>, queue: seq<Heartbeat>, k: nat)
    requires Holds(c, f, done, queue) && |queue| <= SCAN_ALL
    ensures UnackedOf(c, AfterFlushes(c, f, k), BATCH_LIMIT) == Ok([]) <==> k >= (|queue| + 499) / 500
  {
    var left := DropBatches(queue, k);
    FlushesRemove(c, f, done, queue, k);
    UnackedRefines(c, AfterFlushes(c, f, k), DoneAfterFlushes(c, f, done, queue, k), left, BATCH_LIMIT);
    BatchesLeft(queue, k);
    assert Take(left, BATCH_LIMIT) == [] <==> left == [];
  }
}
