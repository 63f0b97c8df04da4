/** What a torn last line, left by a crash inside a write, does to an agent that goes on using the
    file (internal/agent/buffer.go, internal/agent/shipper.go). */
module TornLine {
  import opened Common
  import opened Protocol
  import opened JsonLines
  import opened BufferFile
  import opened Shipper

  /** A line cut short: it decodes neither alone nor with a whole line written right after it. */
  ghost predicate Torn(c: Codec, torn: seq<Byte>) {
    && torn != [] && NL !in torn
    && c.decode(DropCR(torn)) == None
    && forall h :: Good(c, h) ==> c.decode(DropCR(torn + c.encode(h))) == None
  }

  lemma {:induction false} FirstNLFrom(part: seq<Byte>, rest: seq<Byte>)
    requires NL !in part
    ensures FirstNL(part + rest) == |part| + FirstNL(rest)
  {
    if part == [] {
      assert part + rest == rest;
    } else {
      assert (part + rest)[1..] == part[1..] + rest;
      FirstNLFrom(part[1..], rest);
    }
  }

  /** The token at a torn line is unreadable, whatever whole lines follow it. */
  lemma {:induction false} TornToken(c: Codec, torn: seq<Byte>, later: seq<Heartbeat>)
    requires Torn(c, torn) && AllGood(c, later)
    ensures var t := Scan(torn + Lines(c, later)); t.TooLong? || (t.Text? && c.decode(t.line) == None)
  {
    FirstNLFrom(torn, Lines(c, later));
    if later == [] {
      assert torn + Lines(c, later) == torn;
    } else {
      var e, rest := c.encode(later[0]), Lines(c, later[1..]);
      FirstNLOfLine(e, rest);
      assert Lines(c, later) == e + [NL] + rest;
      assert (torn + Lines(c, later))[..|torn| + |e|] == torn + e;
    }
  }

  lemma {:induction false} ReadStopsAt(c: Codec, hs: seq<Heartbeat>, bad: seq<Byte>, limit: nat)
    requires AllGood(c, hs) && limit > |hs|
    requires var t := Scan(bad); t.TooLong? || (t.Text? && c.decode(t.line) == None)
    ensures Decode(c, Lines(c, hs) + bad, limit).Err?
  {
    if hs == [] {
      assert Lines(c, hs) + bad == bad;
    } else {
      Associative(Line(c, hs[0]), Lines(c, hs[1..]), bad);
      DecodeLine(c, hs[0], Lines(c, hs[1..]) + bad, limit);
      ReadStopsAt(c, hs[1..], bad, limit - 1);
    }
  }

  /** queue is unacked and whole, then comes the torn line, then what was appended since. */
  ghost predicate Holds(c: Codec, f: File, queue: seq<Heartbeat>, torn: seq<Byte>, later: seq<Heartbeat>) {
    && AllGood(c, queue) && AllGood(c, later) && Torn(c, torn)
    && Tail(f) == Lines(c, queue) + (torn + Lines(c, later))
  }

  lemma {:induction false} ReadsFail(c: Codec, f: File, queue: seq<Heartbeat>, torn: seq<Byte>, later: seq<Heartbeat>,
                                     limit: int)
    requires Holds(c, f, queue, torn, later) && limit > |queue|
    ensures UnackedOf(c, f, limit).Err?
  {
    TornToken(c, torn, later);
    ReadStopsAt(c, queue, torn + Lines(c, later), limit);
  }

  /** What the agent's two loops try. */
  datatype Attempt = TryFlush | TryAppend(h: Heartbeat)

  /** A flush is answered with 200, should it post anything. */
  function Tried(c: Codec, maxBytes: int, f: File, a: Attempt): File {
    match a
    case TryFlush => AfterFlush(c, f)
    case TryAppend(h) =>
      match Appended(c, maxBytes, f, h)
      case Err(_) => f
      case Ok(g) => g
  }

  function After(c: Codec, maxBytes: int, f: File, attempts: seq<Attempt>): File {
    if attempts == [] then f else Tried(c, maxBytes, After(c, maxBytes, f, Front(attempts)), Last(attempts))
  }

  lemma {:induction false} TriedIs(c: Codec, maxBytes: int, f: File, queue: seq<Heartbeat>, torn: seq<Byte>,
                                   later: seq<Heartbeat>, a: Attempt)
    requires Holds(c, f, queue, torn, later) && |queue| < BATCH_LIMIT
    ensures Tried(c, maxBytes, f, a) == if a.TryAppend? && !Full(maxBytes, f) then Extended(c, f, a.h) else f
  {
    ReadsFail(c, f, queue, torn, later, BATCH_LIMIT);
    ReadsFail(c, f, queue, torn, later, SCAN_ALL);
  }

  lemma {:induction false} ExtendedHolds(c: Codec, f: File, queue: seq<Heartbeat>, torn: seq<Byte>,
                                         later: seq<Heartbeat>, h: Heartbeat)
    requires Holds(c, f, queue, torn, later) && Good(c, h)
    ensures Holds(c, Extended(c, f, h), queue, torn, later + [h])
  {
    var line := Line(c, h);
    assert f.ackedOff < |f.data|;
    assert Tail(Extended(c, f, h)) == Tail(f) + line;
    LinesConcat(c, later, [h]);
    assert Lines(c, [h]) == line;
    Associative(torn, Lines(c, later), line);
    Associative(Lines(c, queue), torn + Lines(c, later), line);
  }

  lemma {:induction false} StillTorn(c: Codec, maxBytes: int, f: File, queue: seq<Heartbeat>, torn: seq<Byte>,
                                     attempts: seq<Attempt>) returns (later: seq<Heartbeat>)
    requires Holds(c, f, queue, torn, []) && |queue| < BATCH_LIMIT
    requires forall a :: a in attempts && a.TryAppend? ==> Good(c, a.h)
    ensures Holds(c, After(c, maxBytes, f, attempts), queue, torn, later)
    ensures f.data <= After(c, maxBytes, f, attempts).data
  {
    later := [];
    if attempts != [] {
      later := StillTorn(c, maxBytes, f, queue, torn, Front(attempts));
      var g := After(c, maxBytes, f, Front(attempts));
      var a := Last(attempts);
      assert a in attempts;
      TriedIs(c, maxBytes, g, queue, torn, later, a);
      if a.TryAppend? && !Full(maxBytes, g) {
        ExtendedHolds(c, g, queue, torn, later, a.h);
        later := later + [a.h];
      }
    }
  }

  /** With a torn line within reach of a batch nothing is uploaded any more: every flush fails and
      nothing is taken off the file; and once it is full every append is refused too. */
  lemma {:induction false} TornLineBlocks(c: Codec, maxBytes: int, f: File, queue: seq<Heartbeat>, torn: seq<Byte>,
                                          attempts: seq<Attempt>)
    requires Holds(c, f, queue, torn, []) && |queue| < BATCH_LIMIT
    requires forall a :: a in attempts && a.TryAppend? ==> Good(c, a.h)
    ensures var g := After(c, maxBytes, f, attempts);
            && f.data <= g.data
            && UnackedOf(c, g, BATCH_LIMIT).Err? && AfterFlush(c, g) == g
            && forall h :: Appended(c, maxBytes, g, h).Err? <==> Full(maxBytes, g)
  {
    var later := StillTorn(c, maxBytes, f, queue, torn, attempts);
    var g := After(c, maxBytes, f, attempts);
    ReadsFail(c, g, queue, torn, later, BATCH_LIMIT);
    ReadsFail(c, g, queue, torn, later, SCAN_ALL);
  }
}
