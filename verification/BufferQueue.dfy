/** The byte file refines a queue, over every run, and what a run may cost
    (internal/agent/buffer.go). */
module BufferQueue {
  import opened Common
  import opened Protocol
  import opened JsonLines
  import opened BufferFile

  // ---------------------------------------------------------------------------------------
  // Refinement: acked heartbeats, then the queue, line by line.
  // ---------------------------------------------------------------------------------------

  ghost predicate Holds(c: Codec, f: File, done: seq<Heartbeat>, queue: seq<Heartbeat>) {
    && AllGood(c, done) && AllGood(c, queue)
    && f.data == Lines(c, done) + Lines(c, queue)
    && f.ackedOff == |Lines(c, done)|
    && f.ackedOff <= f.size <= |f.data|
  }

  lemma HoldsTail(c: Codec, f: File, done: seq<Heartbeat>, queue: seq<Heartbeat>)
    requires Holds(c, f, done, queue)
    ensures Tail(f) == Lines(c, queue)
  {
  }

  lemma {:induction false} UnackedRefines(c: Codec, f: File, done: seq<Heartbeat>, queue: seq<Heartbeat>, limit: int)
    requires Holds(c, f, done, queue)
    ensures UnackedOf(c, f, limit) == Ok(if limit <= 0 then [] else Take(queue, limit))
  {
    HoldsTail(c, f, done, queue);
    if limit > 0 {
      DecodeLines(c, queue, limit);
    }
  }

  /** A rewritten file holds its entries and nothing acked. */
  lemma RewrittenHolds(c: Codec, entries: seq<Heartbeat>)
    requires AllGood(c, entries)
    ensures Holds(c, Rewritten(c, entries), [], entries)
  {
    assert Lines(c, []) + Lines(c, entries) == Lines(c, entries);
  }

  /** Opening forgets which entries were acked: they are queued again. */
  lemma {:induction false} OpenRefines(c: Codec, f: File, done: seq<Heartbeat>, queue: seq<Heartbeat>)
    requires Holds(c, f, done, queue)
    ensures Holds(c, Opened(f.data), [], done + queue)
  {
    LinesConcat(c, done, queue);
    assert Lines(c, []) + Lines(c, done + queue) == f.data;
  }

  /** What overflow leaves of a queue: all but the oldest half. */
  function Kept(queue: seq<Heartbeat>): seq<Heartbeat> { queue[|queue| / 2..] }

  lemma ExtendedHolds(c: Codec, f: File, done: seq<Heartbeat>, queue: seq<Heartbeat>, h: Heartbeat)
    requires Holds(c, f, done, queue) && Good(c, h)
    ensures Holds(c, Extended(c, f, h), done, queue + [h])
  {
    LinesConcat(c, queue, [h]);
    assert Lines(c, [h]) == Line(c, h) + [] == Line(c, h);
    Associative(Lines(c, done), Lines(c, queue), Line(c, h));
  }

  /** Append adds at the tail; on overflow it first drops the oldest half, never the newest. */
  lemma {:induction false} AppendRefines(c: Codec, maxBytes: int, f: File, done: seq<Heartbeat>,
                                         queue: seq<Heartbeat>, h: Heartbeat)
    requires Holds(c, f, done, queue) && Good(c, h) && |queue| <= SCAN_ALL
    ensures Appended(c, maxBytes, f, h).Ok?
    ensures !Full(maxBytes, f) ==> Holds(c, Appended(c, maxBytes, f, h).value, done, queue + [h])
    ensures Full(maxBytes, f) ==>
              && Appended(c, maxBytes, f, h).value == Extended(c, Rewritten(c, Kept(queue)), h)
              && Holds(c, Appended(c, maxBytes, f, h).value, [], Kept(queue) + [h])
  {
    if Full(maxBytes, f) {
      UnackedRefines(c, f, done, queue, SCAN_ALL);
      assert Take(queue, SCAN_ALL) == queue;
      RewrittenHolds(c, Kept(queue));
      ExtendedHolds(c, Rewritten(c, Kept(queue)), [], Kept(queue), h);
    } else {
      ExtendedHolds(c, f, done, queue, h);
    }
  }

  /** Compaction keeps the queue exactly when it fits the limit it reads with. */
  lemma {:induction false} CompactRefines(c: Codec, f: File, done: seq<Heartbeat>, queue: seq<Heartbeat>)
    requires Holds(c, f, done, queue)
    ensures Compacted(c, f) == (Rewritten(c, Take(queue, SCAN_ALL)), None)
    ensures Holds(c, Compacted(c, f).0, [], Take(queue, SCAN_ALL))
    ensures Take(queue, SCAN_ALL) == queue <==> |queue| <= 0x4000_0000
  {
    UnackedRefines(c, f, done, queue, SCAN_ALL);
    RewrittenHolds(c, Take(queue, SCAN_ALL));
  }

  /** Does this Ack compact? */
  predicate Compacts(c: Codec, f: File, queue: seq<Heartbeat>, count: int) {
    count > 0 && Compactable(Advanced(f, Bytes(c, Take(queue, count))))
  }

  lemma AdvancedHolds(c: Codec, f: File, done: seq<Heartbeat>, queue: seq<Heartbeat>, count: nat)
    requires Holds(c, f, done, queue)
    ensures var g := Advanced(f, Bytes(c, Take(queue, count)));
            && g.data == Lines(c, done + Take(queue, count)) + Lines(c, Drop(queue, count))
            && g.ackedOff == |Lines(c, done + Take(queue, count))| <= |g.data|
  {
    var taken, left := Take(queue, count), Drop(queue, count);
    assert queue == taken + left;
    LinesConcat(c, taken, left);
    LinesConcat(c, done, taken);
    BytesOfLines(c, taken);
    Associative(Lines(c, done), Lines(c, taken), Lines(c, left));
  }

  /** Ack removes exactly the first count of the queue, whether or not it compacts. */
  lemma {:induction false} AckRefines(c: Codec, f: File, done: seq<Heartbeat>, queue: seq<Heartbeat>, count: int)
    requires Holds(c, f, done, queue) && |queue| <= SCAN_ALL && count > 0
    ensures Acked(c, f, count).1 == None
    ensures Compacts(c, f, queue, count) ==>
              && Acked(c, f, count).0 == Rewritten(c, Drop(queue, count))
              && Holds(c, Acked(c, f, count).0, [], Drop(queue, count))
    ensures !Compacts(c, f, queue, count) ==>
              && Acked(c, f, count).0 == Advanced(f, Bytes(c, Take(queue, count)))
              && Holds(c, Acked(c, f, count).0, done + Take(queue, count), Drop(queue, count))
  {
    var g := Advanced(f, Bytes(c, Take(queue, count)));
    HoldsTail(c, f, done, queue);
    MeasureLines(c, queue, count);
    AdvancedHolds(c, f, done, queue, count);
    if Compacts(c, f, queue, count) {
      var h := g.(size := |g.data|);
      CompactRefines(c, h, done + Take(queue, count), Drop(queue, count));
      assert Tail(g) == Tail(h);
    }
  }

  // ---------------------------------------------------------------------------------------
  // Runs from an open on: the file beside the queue it stands for, and what was spent.
  // ---------------------------------------------------------------------------------------

  /** DoReopen: the agent is restarted and opens the file it left. */
  datatype Op = DoAppend(h: Heartbeat) | DoAck(count: int) | DoReopen

  /** atOpen: bytes found at the last open; inAll: bytes found at all opens together; appended and
      compacted: bytes appended and bytes that compaction rewrote, since the first. */
  datatype Run = Run(f: File, done: seq<Heartbeat>, queue: seq<Heartbeat>,
                     atOpen: nat, inAll: nat, appended: nat, compacted: nat)

  function Start(c: Codec, found: seq<Heartbeat>): Run {
    var bytes := |Lines(c, found)|;
    Run(Opened(Lines(c, found)), [], found, bytes, bytes, 0, 0)
  }

  function Next(c: Codec, maxBytes: int, r: Run, op: Op): Run {
    match op
    case DoAppend(h) =>
      (match Appended(c, maxBytes, r.f, h)
       case Err(_) => r
       case Ok(f) =>
         var after := r.(f := f, appended := r.appended + |Line(c, h)|);
         if Full(maxBytes, r.f) then after.(done := [], queue := Kept(r.queue) + [h])
         else after.(queue := r.queue + [h]))
    case DoAck(count) =>
      var f := Acked(c, r.f, count).0;
      if count <= 0 then r
      else if Compacts(c, r.f, r.queue, count) then
        r.(f := f, done := [], queue := Drop(r.queue, count), compacted := r.compacted + |f.data|)
      else r.(f := f, done := r.done + Take(r.queue, count), queue := Drop(r.queue, count))
    case DoReopen =>
      r.(f := Opened(r.f.data), done := [], queue := r.done + r.queue,
         atOpen := |r.f.data|, inAll := r.inAll + |r.f.data|)
  }

  function After(c: Codec, maxBytes: int, r: Run, ops: seq<Op>): Run {
    if ops == [] then r else Next(c, maxBytes, After(c, maxBytes, r, Front(ops)), Last(ops))
  }

  ghost predicate GoodOps(c: Codec, ops: seq<Op>) {
    forall i :: 0 <= i < |ops| && ops[i].DoAppend? ==> Good(c, ops[i].h)
  }

  /** Bytes of the file that size does not count: what was there at open, until a rewrite. */
  function Uncounted(f: File): int { |f.data| - f.size }

  ghost predicate Inv(c: Codec, r: Run) {
    && Holds(c, r.f, r.done, r.queue)
    && Uncounted(r.f) <= r.atOpen
    && 2 * r.f.ackedOff <= r.f.size
    && r.compacted + |r.f.data| + Uncounted(r.f) <= r.appended + 2 * r.inAll
  }

  lemma AppendInv(c: Codec, maxBytes: int, r: Run, h: Heartbeat)
    requires Inv(c, r) && Good(c, h) && |r.queue| <= SCAN_ALL
    ensures Inv(c, Next(c, maxBytes, r, DoAppend(h)))
  {
    AppendRefines(c, maxBytes, r.f, r.done, r.queue, h);
    if Full(maxBytes, r.f) {
      KeptBytes(c, r.queue);
      BytesOfLines(c, r.queue);
      BytesOfLines(c, Kept(r.queue));
    }
  }

  lemma KeptBytes(c: Codec, queue: seq<Heartbeat>)
    ensures Bytes(c, queue) == Bytes(c, queue[..|queue| / 2]) + Bytes(c, Kept(queue))
  {
    assert queue == queue[..|queue| / 2] + Kept(queue);
    BytesConcat(c, queue[..|queue| / 2], Kept(queue));
  }

  lemma {:induction false} AckInv(c: Codec, maxBytes: int, r: Run, count: int)
    requires Inv(c, r) && |r.queue| <= SCAN_ALL
    ensures Inv(c, Next(c, maxBytes, r, DoAck(count)))
    ensures count > 0 ==> var after := Next(c, maxBytes, r, DoAck(count)); |after.f.data| <= 2 * Bytes(c, after.queue)
  {
    if count > 0 {
      var taken, left := Take(r.queue, count), Drop(r.queue, count);
      var g := Advanced(r.f, Bytes(c, taken));
      AckRefines(c, r.f, r.done, r.queue, count);
      AdvancedHolds(c, r.f, r.done, r.queue, count);
      BytesOfLines(c, left);
    }
  }

  lemma {:induction false} ReopenInv(c: Codec, maxBytes: int, r: Run)
    requires Inv(c, r)
    ensures Inv(c, Next(c, maxBytes, r, DoReopen))
  {
    OpenRefines(c, r.f, r.done, r.queue);
  }

  lemma {:induction false} NextInv(c: Codec, maxBytes: int, r: Run, op: Op)
    requires Inv(c, r) && |r.queue| <= SCAN_ALL && (op.DoAppend? ==> Good(c, op.h))
    ensures Inv(c, Next(c, maxBytes, r, op))
  {
    match op
    case DoAppend(h) => AppendInv(c, maxBytes, r, h);
    case DoAck(count) => AckInv(c, maxBytes, r, count);
    case DoReopen => ReopenInv(c, maxBytes, r);
  }

  /** At no point of the run are there more entries to read than compact and rotateIfFull ask for. */
  ghost predicate Fits(c: Codec, maxBytes: int, found: seq<Heartbeat>, ops: seq<Op>) {
    && |After(c, maxBytes, Start(c, found), ops).queue| <= SCAN_ALL
    && (ops != [] ==> Fits(c, maxBytes, found, Front(ops)))
  }

  /** MAIN: in every reachable state, restarts included, the bytes stand for the queue, with ackedOff on
      a line boundary, and all that compaction rewrote is paid for by what was appended or found. */
  lemma {:induction false} EveryRunRefinesQueue(c: Codec, maxBytes: int, found: seq<Heartbeat>, ops: seq<Op>)
    requires AllGood(c, found) && GoodOps(c, ops) && Fits(c, maxBytes, found, ops)
    ensures Inv(c, After(c, maxBytes, Start(c, found), ops))
  {
    if ops == [] {
      StartInv(c, found);
    } else {
      EveryRunRefinesQueue(c, maxBytes, found, Front(ops));
      NextInv(c, maxBytes, After(c, maxBytes, Start(c, found), Front(ops)), Last(ops));
    }
  }

  lemma {:induction false} StartInv(c: Codec, found: seq<Heartbeat>)
    requires AllGood(c, found)
    ensures Inv(c, Start(c, found)) && Bytes(c, found) == |Lines(c, found)|
  {
    RewrittenHolds(c, found);
    BytesOfLines(c, found);
  }

  /** A run too short for that cannot help it. */
  lemma {:induction false} ShortRunsFit(c: Codec, maxBytes: int, found: seq<Heartbeat>, ops: seq<Op>)
    requires AllGood(c, found) && GoodOps(c, ops) && |found| + |ops| <= SCAN_ALL
    ensures Fits(c, maxBytes, found, ops)
    ensures var r := After(c, maxBytes, Start(c, found), ops); |r.done| + |r.queue| <= |found| + |ops|
  {
    if ops != [] {
      ShortRunsFit(c, maxBytes, found, Front(ops));
      EveryRunRefinesQueue(c, maxBytes, found, Front(ops));
      NextEntries(c, maxBytes, After(c, maxBytes, Start(c, found), Front(ops)), Last(ops));
    }
  }

  lemma {:induction false} NextEntries(c: Codec, maxBytes: int, r: Run, op: Op)
    requires Inv(c, r) && |r.queue| <= SCAN_ALL && (op.DoAppend? ==> Good(c, op.h))
    ensures var after := Next(c, maxBytes, r, op); |after.done| + |after.queue| <= |r.done| + |r.queue| + 1
  {
  }

  lemma SameOpen(c: Codec, maxBytes: int, r: Run, op: Op)
    requires !op.DoReopen?
    ensures Next(c, maxBytes, r, op).inAll == r.inAll && Next(c, maxBytes, r, op).atOpen == r.atOpen
  {
  }

  lemma {:induction false} WithoutReopen(c: Codec, maxBytes: int, found: seq<Heartbeat>, ops: seq<Op>)
    requires DoReopen !in ops
    ensures var r := After(c, maxBytes, Start(c, found), ops); r.inAll == r.atOpen == |Lines(c, found)|
  {
    if ops != [] {
      assert Last(ops) in ops;
      WithoutReopen(c, maxBytes, found, Front(ops));
      SameOpen(c, maxBytes, After(c, maxBytes, Start(c, found), Front(ops)), Last(ops));
      hide Next;
    }
  }

  /** MAIN: compaction never rewrites more bytes than were appended, and twice what was found at opens;
      on a file empty at open and never reopened, no more than were appended. */
  lemma {:induction false} CompactionIsAmortised(c: Codec, maxBytes: int, found: seq<Heartbeat>, ops: seq<Op>)
    requires AllGood(c, found) && GoodOps(c, ops) && Fits(c, maxBytes, found, ops)
    ensures var r := After(c, maxBytes, Start(c, found), ops);
            && r.compacted + |r.f.data| <= r.appended + 2 * r.inAll
            && (found == [] && DoReopen !in ops ==> r.compacted + |r.f.data| <= r.appended)
  {
    EveryRunRefinesQueue(c, maxBytes, found, ops);
    if DoReopen !in ops {
      WithoutReopen(c, maxBytes, found, ops);
    }
  }

  /** After any Ack(count > 0) of any run the file is at most twice its unacked bytes. */
  lemma {:induction false} FileAtMostTwiceUnacked(c: Codec, maxBytes: int, found: seq<Heartbeat>, ops: seq<Op>,
                                                  count: int)
    requires AllGood(c, found) && GoodOps(c, ops) && Fits(c, maxBytes, found, ops) && count > 0
    ensures var r := After(c, maxBytes, Start(c, found), ops + [DoAck(count)]); |r.f.data| <= 2 * Bytes(c, r.queue)
  {
    EveryRunRefinesQueue(c, maxBytes, found, ops);
    AckInv(c, maxBytes, After(c, maxBytes, Start(c, found), ops), count);
    assert Front(ops + [DoAck(count)]) == ops;
  }

  // ---------------------------------------------------------------------------------------
  // The overflow bound.
  // ---------------------------------------------------------------------------------------

  ghost predicate Sized(c: Codec, hs: seq<Heartbeat>, least: nat, most: nat) {
    forall i :: 0 <= i < |hs| ==> least <= |Line(c, hs[i])| <= most
  }

  lemma OneMore(a: nat, n: nat)
    ensures a * (n + 1) == a + a * n
  {
  }

  lemma {:induction false} SizedBytes(c: Codec, hs: seq<Heartbeat>, least: nat, most: nat)
    requires Sized(c, hs, least, most)
    ensures least * |hs| <= Bytes(c, hs) <= most * |hs|
  {
    if hs != [] {
      SizedBytes(c, hs[1..], least, most);
      OneMore(least, |hs[1..]|);
      OneMore(most, |hs[1..]|);
    }
  }

  lemma Multiply(a: nat, x: nat, y: nat)
    requires x <= y
    ensures a * x <= a * y
  {
  }

  lemma HalfIsEnough(least: nat, most: nat, ratio: nat, n: nat)
    requires most <= least * ratio && most * n > most * (2 * ratio)
    ensures least * (n / 2) >= most
  {
    if n <= 2 * ratio {
      Multiply(most, n, 2 * ratio);
    }
    Multiply(least, ratio, n / 2);
  }

  /** maxBytes has room for 2 * ceil(most / least) of the longest lines. */
  predicate Roomy(maxBytes: nat, least: nat, most: nat, ratio: nat) {
    most <= least * ratio && maxBytes >= most * (2 * ratio)
  }

  /** Dropping half of an overfull queue frees at least one line's worth. */
  lemma {:induction false} OverflowFreesALine(c: Codec, maxBytes: nat, queue: seq<Heartbeat>, least: nat, most: nat,
                                              ratio: nat)
    requires Sized(c, queue, least, most) && Roomy(maxBytes, least, most, ratio)
    requires Bytes(c, queue) > maxBytes
    ensures Bytes(c, Kept(queue)) + most <= Bytes(c, queue)
  {
    SizedBytes(c, queue, least, most);
    SizedBytes(c, queue[..|queue| / 2], least, most);
    HalfIsEnough(least, most, ratio, |queue|);
    KeptBytes(c, queue);
  }

  ghost predicate SizedOps(c: Codec, ops: seq<Op>, least: nat, most: nat) {
    forall i :: 0 <= i < |ops| && ops[i].DoAppend? ==> least <= |Line(c, ops[i].h)| <= most
  }

  /** size may miss what was there at open, and nothing more. */
  lemma UnackedBytes(c: Codec, r: Run)
    requires Inv(c, r)
    ensures r.f.size - r.f.ackedOff <= Bytes(c, r.queue) <= r.f.size - r.f.ackedOff + r.atOpen
  {
    BytesOfLines(c, r.queue);
  }

  lemma SizedGrows(c: Codec, queue: seq<Heartbeat>, h: Heartbeat, least: nat, most: nat)
    requires Sized(c, queue, least, most) && least <= |Line(c, h)| <= most
    ensures Sized(c, queue + [h], least, most) && Bytes(c, queue + [h]) <= Bytes(c, queue) + most
  {
    BytesConcat(c, queue, [h]);
  }

  lemma AppendBounded(c: Codec, maxBytes: nat, r: Run, h: Heartbeat, least: nat, most: nat)
    requires Inv(c, r) && |r.queue| <= SCAN_ALL && Good(c, h) && least <= |Line(c, h)| <= most
    requires Sized(c, r.queue, least, most) && Bytes(c, r.queue) <= maxBytes + most + r.atOpen
    requires Full(maxBytes, r.f) ==> Bytes(c, Kept(r.queue)) + most <= Bytes(c, r.queue)
    ensures var after := Next(c, maxBytes, r, DoAppend(h));
            Sized(c, after.queue, least, most) && Bytes(c, after.queue) <= maxBytes + most + r.atOpen
  {
    AppendRefines(c, maxBytes, r.f, r.done, r.queue, h);
    UnackedBytes(c, r);
    SizedGrows(c, if Full(maxBytes, r.f) then Kept(r.queue) else r.queue, h, least, most);
    hide Appended, Inv, Bytes, Sized;
  }

  lemma AckBounded(c: Codec, maxBytes: nat, r: Run, count: int)
    ensures var after := Next(c, maxBytes, r, DoAck(count)); Bytes(c, after.queue) <= Bytes(c, r.queue)
    ensures var after := Next(c, maxBytes, r, DoAck(count));
            after.queue == Drop(r.queue, if count > 0 then count else 0)
  {
    if count > 0 {
      assert r.queue == Take(r.queue, count) + Drop(r.queue, count);
      BytesConcat(c, Take(r.queue, count), Drop(r.queue, count));
    }
  }

  /** Either what size counts as unacked is bounded, or size counts everything and the file is. */
  predicate FileBounded(maxBytes: nat, r: Run, most: nat) {
    || r.f.size - r.f.ackedOff <= maxBytes + most
    || (Uncounted(r.f) == 0 && |r.f.data| <= maxBytes + most + r.atOpen)
  }

  /** Every line in the file is sized, and unacked bytes pass maxBytes by at most one line and what was
      found at the last open. */
  ghost predicate Bounded(c: Codec, maxBytes: nat, r: Run, least: nat, most: nat) {
    && Sized(c, r.done, least, most) && Sized(c, r.queue, least, most)
    && Bytes(c, r.queue) <= maxBytes + most + r.atOpen
    && FileBounded(maxBytes, r, most)
  }

  lemma {:induction false} AppendKeepsBounded(c: Codec, maxBytes: nat, r: Run, h: Heartbeat,
                                              least: nat, most: nat, ratio: nat)
    requires Inv(c, r) && |r.queue| <= SCAN_ALL && Good(c, h) && least <= |Line(c, h)| <= most
    requires Bounded(c, maxBytes, r, least, most)
    requires Roomy(maxBytes, least, most, ratio)
    ensures Bounded(c, maxBytes, Next(c, maxBytes, r, DoAppend(h)), least, most)
  {
    UnackedBytes(c, r);
    if Full(maxBytes, r.f) {
      OverflowFreesALine(c, maxBytes, r.queue, least, most, ratio);
    }
    AppendBounded(c, maxBytes, r, h, least, most);
    AppendedFile(c, maxBytes, r, h);
  }

  /** What an append makes of the file: counted in full after an overflow. */
  lemma {:induction false} AppendedFile(c: Codec, maxBytes: int, r: Run, h: Heartbeat)
    requires Inv(c, r) && Good(c, h) && |r.queue| <= SCAN_ALL
    ensures var after := Next(c, maxBytes, r, DoAppend(h));
            && (!Full(maxBytes, r.f) ==> after.f == Extended(c, r.f, h) && after.done == r.done)
            && (Full(maxBytes, r.f) ==>
                  Uncounted(after.f) == 0 && |after.f.data| == Bytes(c, after.queue) && after.done == [])
  {
    AppendRefines(c, maxBytes, r.f, r.done, r.queue, h);
    if Full(maxBytes, r.f) {
      BytesOfLines(c, Kept(r.queue));
      BytesConcat(c, Kept(r.queue), [h]);
    }
  }

  lemma {:induction false} AckKeepsBounded(c: Codec, maxBytes: nat, r: Run, count: int, least: nat, most: nat)
    requires Inv(c, r) && |r.queue| <= SCAN_ALL && Bounded(c, maxBytes, r, least, most)
    ensures Bounded(c, maxBytes, Next(c, maxBytes, r, DoAck(count)), least, most)
  {
    if count > 0 {
      var taken, left := Take(r.queue, count), Drop(r.queue, count);
      AckBounded(c, maxBytes, r, count);
      AckedFile(c, maxBytes, r, count);
      SizedParts(c, r.done, r.queue, count, least, most);
      hide Next, Inv, Sized, Bytes;
    }
  }

  lemma SizedParts(c: Codec, done: seq<Heartbeat>, queue: seq<Heartbeat>, count: nat, least: nat, most: nat)
    requires Sized(c, done, least, most) && Sized(c, queue, least, most)
    ensures Sized(c, done + Take(queue, count), least, most) && Sized(c, Drop(queue, count), least, most)
    ensures Sized(c, [], least, most)
  {
  }

  /** What an ack makes of the file: counted in full after a compaction. */
  lemma {:induction false} AckedFile(c: Codec, maxBytes: int, r: Run, count: int)
    requires Inv(c, r) && |r.queue| <= SCAN_ALL && count > 0
    ensures var after := Next(c, maxBytes, r, DoAck(count));
            after.atOpen == r.atOpen &&
            if Compacts(c, r.f, r.queue, count)
            then Uncounted(after.f) == 0 && |after.f.data| == Bytes(c, after.queue) && after.done == []
            else after.f == Advanced(r.f, Bytes(c, Take(r.queue, count))) && after.done == r.done + Take(r.queue, count)
  {
    AckRefines(c, r.f, r.done, r.queue, count);
    BytesOfLines(c, Drop(r.queue, count));
  }

  /** What one reopening can add: the acked lines it queues again are at most as many bytes as the
      rest that size counts. */
  lemma {:induction false} ReopenKeepsBounded(c: Codec, maxBytes: nat, r: Run, least: nat, most: nat)
    requires Inv(c, r) && Bounded(c, maxBytes, r, least, most)
    ensures var after := Next(c, maxBytes, r, DoReopen);
            Bounded(c, maxBytes, after, least, most) && after.atOpen <= r.atOpen + 2 * (maxBytes + most)
  {
    LinesConcat(c, r.done, r.queue);
    BytesOfLines(c, r.done + r.queue);
  }

  /** What n restarts can add. */
  function Growth(maxBytes: nat, most: nat, n: nat): nat { 2 * (maxBytes + most) * n }

  lemma GrowthStep(maxBytes: nat, most: nat, n: nat)
    ensures Growth(maxBytes, most, n + 1) == 2 * (maxBytes + most) + Growth(maxBytes, most, n)
    ensures Growth(maxBytes, most, 0) == 0
  {
    OneMore(2 * (maxBytes + most), n);
  }

  function Reopens(ops: seq<Op>): nat {
    if ops == [] then 0 else Reopens(Front(ops)) + if Last(ops).DoReopen? then 1 else 0
  }

  lemma {:induction false} NextKeepsBounded(c: Codec, maxBytes: nat, r: Run, op: Op,
                                            least: nat, most: nat, ratio: nat)
    requires Inv(c, r) && |r.queue| <= SCAN_ALL && Bounded(c, maxBytes, r, least, most)
    requires op.DoAppend? ==> Good(c, op.h) && least <= |Line(c, op.h)| <= most
    requires Roomy(maxBytes, least, most, ratio)
    ensures var after := Next(c, maxBytes, r, op);
            && Bounded(c, maxBytes, after, least, most)
            && after.atOpen <= r.atOpen + if op.DoReopen? then 2 * (maxBytes + most) else 0
  {
    match op
    case DoAppend(h) => AppendKeepsBounded(c, maxBytes, r, h, least, most, ratio);
    case DoAck(count) => AckKeepsBounded(c, maxBytes, r, count, least, most);
    case DoReopen => ReopenKeepsBounded(c, maxBytes, r, least, most);
  }

  /** MAIN: with lines of least to most bytes and room for enough of them, unacked bytes never exceed
      maxBytes by more than one line and what was found at the last open; and each restart finds at
      most 2 * (maxBytes + most) more than the one before. */
  lemma {:induction false} UnackedBytesBounded(c: Codec, maxBytes: nat, found: seq<Heartbeat>, ops: seq<Op>,
                                               least: nat, most: nat, ratio: nat)
    requires AllGood(c, found) && GoodOps(c, ops) && Fits(c, maxBytes, found, ops)
    requires Sized(c, found, least, most) && SizedOps(c, ops, least, most)
    requires Roomy(maxBytes, least, most, ratio)
    ensures var r := After(c, maxBytes, Start(c, found), ops);
            && Bounded(c, maxBytes, r, least, most)
            && r.atOpen <= |Lines(c, found)| + Growth(maxBytes, most, Reopens(ops))
  {
    if ops == [] {
      StartBounded(c, maxBytes, found, least, most);
    } else {
      OpsFront(c, ops, least, most);
      hide Roomy, GoodOps, SizedOps, Sized, Bounded, Next, Inv;
      UnackedBytesBounded(c, maxBytes, found, Front(ops), least, most, ratio);
      EveryRunRefinesQueue(c, maxBytes, found, Front(ops));
      NextKeepsBounded(c, maxBytes, After(c, maxBytes, Start(c, found), Front(ops)), Last(ops), least, most, ratio);
      GrowthStep(maxBytes, most, Reopens(Front(ops)));
      hide Growth;
    }
  }

  lemma OpsFront(c: Codec, ops: seq<Op>, least: nat, most: nat)
    requires ops != [] && GoodOps(c, ops) && SizedOps(c, ops, least, most)
    ensures GoodOps(c, Front(ops)) && SizedOps(c, Front(ops), least, most)
    ensures Last(ops).DoAppend? ==> Good(c, Last(ops).h) && least <= |Line(c, Last(ops).h)| <= most
  {
  }

  lemma {:induction false} StartBounded(c: Codec, maxBytes: nat, found: seq<Heartbeat>, least: nat, most: nat)
    requires Sized(c, found, least, most)
    ensures Bounded(c, maxBytes, Start(c, found), least, most)
    ensures Start(c, found).atOpen <= |Lines(c, found)| + Growth(maxBytes, most, 0)
  {
    BytesOfLines(c, found);
  }

  lemma {:induction false} AppendsWithoutOverflow(c: Codec, maxBytes: int, r: Run, h: Heartbeat)
    requires Inv(c, r) && Good(c, h) && |r.queue| <= SCAN_ALL && !Full(maxBytes, r.f)
    ensures var after := Next(c, maxBytes, r, DoAppend(h));
            && Inv(c, after) && after.queue == r.queue + [h]
            && after.f.size == r.f.size + |Line(c, h)| && after.f.ackedOff == r.f.ackedOff
            && after.done == r.done && after.atOpen == r.atOpen
            && Bytes(c, after.queue) == Bytes(c, r.queue) + |Line(c, h)|
  {
    AppendRefines(c, maxBytes, r.f, r.done, r.queue, h);
    AppendInv(c, maxBytes, r, h);
    BytesConcat(c, r.queue, [h]);
  }

  // A run that reaches the bound at every open: three appends, restart, three appends, restart, ...

  function Rounds(h: Heartbeat, k: nat): seq<Op> {
    if k == 0 then [DoAppend(h), DoAppend(h), DoAppend(h)]
    else Rounds(h, k - 1) + [DoReopen] + [DoAppend(h), DoAppend(h), DoAppend(h)]
  }

  lemma {:induction false} ThreeAppends(c: Codec, maxBytes: int, r: Run, h: Heartbeat)
    requires Inv(c, r) && Good(c, h) && |r.queue| + 3 <= SCAN_ALL
    requires r.f.size - r.f.ackedOff + 2 * |Line(c, h)| <= maxBytes
    ensures var op := DoAppend(h);
            var after := Next(c, maxBytes, Next(c, maxBytes, Next(c, maxBytes, r, op), op), op);
            && Inv(c, after) && after.queue == r.queue + [h] + [h] + [h] && after.done == r.done
            && after.f.ackedOff == r.f.ackedOff && after.atOpen == r.atOpen
            && Bytes(c, after.queue) == Bytes(c, r.queue) + 3 * |Line(c, h)|
  {
    var one := Next(c, maxBytes, r, DoAppend(h));
    var two := Next(c, maxBytes, one, DoAppend(h));
    hide Next, Inv, Bytes, Line;
    AppendsWithoutOverflow(c, maxBytes, r, h);
    AppendsWithoutOverflow(c, maxBytes, one, h);
    AppendsWithoutOverflow(c, maxBytes, two, h);
  }

  lemma {:induction false} AfterThree(c: Codec, maxBytes: int, r: Run, ops: seq<Op>, op: Op)
    ensures After(c, maxBytes, r, ops + [op, op, op])
            == Next(c, maxBytes, Next(c, maxBytes, Next(c, maxBytes, After(c, maxBytes, r, ops), op), op), op)
  {
    hide Next;
    assert Front(ops + [op]) == ops && Front(ops + [op, op]) == ops + [op];
    assert Front(ops + [op, op, op]) == ops + [op, op];
    assert After(c, maxBytes, r, ops + [op]) == Next(c, maxBytes, After(c, maxBytes, r, ops), op);
  }

  lemma {:induction false} RoundsAreGood(c: Codec, h: Heartbeat, k: nat)
    requires Good(c, h)
    ensures GoodOps(c, Rounds(h, k)) && SizedOps(c, Rounds(h, k), |Line(c, h)|, |Line(c, h)|)
    ensures |Rounds(h, k)| == 3 + 4 * k && Reopens(Rounds(h, k)) == k
  {
    var three := [DoAppend(h), DoAppend(h), DoAppend(h)];
    if k == 0 {
      ReopensOfThree([], h);
      assert [] + three == three;
    } else {
      var before := Rounds(h, k - 1) + [DoReopen];
      RoundsAreGood(c, h, k - 1);
      assert Front(before) == Rounds(h, k - 1);
      ReopensOfThree(before, h);
    }
  }

  lemma {:induction false} ReopensOfThree(ops: seq<Op>, h: Heartbeat)
    ensures Reopens(ops + [DoAppend(h), DoAppend(h), DoAppend(h)]) == Reopens(ops)
  {
    var op := DoAppend(h);
    assert Front(ops + [op]) == ops && Front(ops + [op, op]) == ops + [op];
    assert Front(ops + [op, op, op]) == ops + [op, op];
    assert Reopens(ops + [op]) == Reopens(ops);
  }

  /** k sessions of three lines each. */
  function Grown(most: nat, k: nat): nat {
    if k == 0 then 0 else Grown(most, k - 1) + 3 * most
  }

  lemma {:induction false} GrownIs(most: nat, k: nat)
    ensures Grown(most, k) == k * (3 * most)
  {
    if k > 0 {
      GrownIs(most, k - 1);
      OneMore(3 * most, k - 1);
    }
  }

  /** What a run of rounds has come to. */
  ghost predicate Reached(c: Codec, found: seq<Heartbeat>, r: Run, most: nat, k: nat) {
    && Inv(c, r) && r.done == [] && r.f.ackedOff == 0 && |r.queue| == |found| + 3 + 3 * k
    && Bytes(c, r.queue) == 3 * most + r.atOpen && r.atOpen == |Lines(c, found)| + Grown(most, k)
  }

  function Thrice(c: Codec, maxBytes: int, r: Run, h: Heartbeat): Run {
    var op := DoAppend(h);
    Next(c, maxBytes, Next(c, maxBytes, Next(c, maxBytes, r, op), op), op)
  }

  lemma {:induction false} RoundsReach(c: Codec, maxBytes: nat, found: seq<Heartbeat>, h: Heartbeat, most: nat, k: nat)
    requires AllGood(c, found) && Good(c, h) && |found| + 3 + 4 * k <= SCAN_ALL
    requires most == |Line(c, h)| && maxBytes == 2 * most
    ensures Reached(c, found, After(c, maxBytes, Start(c, found), Rounds(h, k)), most, k)
  {
    hide Reached, Thrice, Next, After, Rounds, Start, AllGood, Good, Line;
    RoundsUnfold(c, maxBytes, Start(c, found), h, k);
    if k == 0 {
      FirstRound(c, maxBytes, found, h, most);
    } else {
      RoundsReach(c, maxBytes, found, h, most, k - 1);
      AnotherRound(c, maxBytes, found, After(c, maxBytes, Start(c, found), Rounds(h, k - 1)), h, most, k - 1);
    }
  }

  lemma {:induction false} RoundsUnfold(c: Codec, maxBytes: int, start: Run, h: Heartbeat, k: nat)
    ensures After(c, maxBytes, start, Rounds(h, k)) ==
            if k == 0 then Thrice(c, maxBytes, start, h)
            else Thrice(c, maxBytes, Next(c, maxBytes, After(c, maxBytes, start, Rounds(h, k - 1)), DoReopen), h)
  {
    hide Next;
    if k == 0 {
      AfterThree(c, maxBytes, start, [], DoAppend(h));
      assert [] + [DoAppend(h), DoAppend(h), DoAppend(h)] == Rounds(h, 0);
    } else {
      var before := Rounds(h, k - 1) + [DoReopen];
      assert Front(before) == Rounds(h, k - 1);
      AfterThree(c, maxBytes, start, before, DoAppend(h));
    }
  }

  lemma {:induction false} FirstRound(c: Codec, maxBytes: nat, found: seq<Heartbeat>, h: Heartbeat, most: nat)
    requires AllGood(c, found) && Good(c, h) && |found| + 3 <= SCAN_ALL
    requires most == |Line(c, h)| && maxBytes == 2 * most
    ensures Reached(c, found, Thrice(c, maxBytes, Start(c, found), h), most, 0)
  {
    StartInv(c, found);
    ThreeAppends(c, maxBytes, Start(c, found), h);
    hide Next, Inv, Bytes, Lines, Line;
  }

  lemma {:induction false} AnotherRound(c: Codec, maxBytes: nat, found: seq<Heartbeat>, r: Run, h: Heartbeat, most: nat,
                                        k: nat)
    requires Good(c, h) && Reached(c, found, r, most, k) && |found| + 6 + 3 * k <= SCAN_ALL
    requires most == |Line(c, h)| && maxBytes == 2 * most
    ensures Reached(c, found, Thrice(c, maxBytes, Next(c, maxBytes, r, DoReopen), h), most, k + 1)
  {
    Reopening(c, maxBytes, r);
    ThreeAppends(c, maxBytes, Next(c, maxBytes, r, DoReopen), h);
    hide Next, Inv, Bytes, Lines, Line;
  }

  lemma {:induction false} Reopening(c: Codec, maxBytes: int, r: Run)
    requires Inv(c, r) && r.done == []
    ensures var after := Next(c, maxBytes, r, DoReopen);
            && Inv(c, after) && after.done == [] && after.queue == r.queue
            && after.f.ackedOff == after.f.size == 0 && after.atOpen == Bytes(c, r.queue)
  {
    ReopenInv(c, maxBytes, r);
    BytesOfLines(c, r.queue);
    assert Lines(c, []) + Lines(c, r.queue) == Lines(c, r.queue);
    assert r.done + r.queue == r.queue;
  }

  /** The bound is reached in every session, and without a single ack each restart lets maxBytes + most
      more be unacked: what is found at open is not counted towards the limit. */
  lemma {:induction false} BoundIsReached(c: Codec, found: seq<Heartbeat>, h: Heartbeat, k: nat)
    requires AllGood(c, found) && Good(c, h) && |found| + 3 + 4 * k <= SCAN_ALL
    requires Sized(c, found, |Line(c, h)|, |Line(c, h)|)
    ensures var most, ops := |Line(c, h)|, Rounds(h, k);
            var maxBytes := 2 * most;
            var r := After(c, maxBytes, Start(c, found), ops);
            && GoodOps(c, ops) && SizedOps(c, ops, most, most) && Fits(c, maxBytes, found, ops) && Reopens(ops) == k
            && Bytes(c, r.queue) == maxBytes + most + r.atOpen
            && r.atOpen == |Lines(c, found)| + k * (maxBytes + most)
  {
    hide Rounds, After, Start, Inv, Bytes, Sized, GoodOps, SizedOps, Fits, Grown;
    RoundsAreGood(c, h, k);
    ShortRunsFit(c, 2 * |Line(c, h)|, found, Rounds(h, k));
    RoundsReach(c, 2 * |Line(c, h)|, found, h, |Line(c, h)|, k);
    GrownIs(|Line(c, h)|, k);
  }

  /** Overflow drops an oldest part, at most half of the entries, and never the newest. */
  lemma {:induction false} OverflowDropsOldest(queue: seq<Heartbeat>)
    ensures var kept := Kept(queue);
            && 2 * (|queue| - |kept|) <= |queue| && queue[|queue| - |kept|..] == kept
            && (queue != [] ==> kept != [] && Last(kept) == Last(queue))
  {
  }
}
