/** JSON lines as the agent's buffer reads and writes them: encoding, and bufio.Scanner's view of
    the bytes (internal/agent/buffer.go). */
module JsonLines {
  import opened Common
  import opened Protocol

  newtype Byte = x: int | 0 <= x < 256

  const NL: Byte := 10
  const CR: Byte := 13

  /** bufio.MaxScanTokenSize: a line and its newline must fit in this many bytes. */
  const MAX_TOKEN: int := 65536

  /** json.Marshal and json.Unmarshal, taken as given. */
  datatype Codec = Codec(encode: Heartbeat -> seq<Byte>, decode: seq<Byte> -> Option<Heartbeat>)

  /** What is assumed of the encoding of one heartbeat: it decodes to the heartbeat, holds no raw
      newline, does not end in a carriage return, and is shorter than a scanner token. */
  ghost predicate Good(c: Codec, h: Heartbeat) {
    && c.decode(c.encode(h)) == Some(h)
    && NL !in c.encode(h)
    && DropCR(c.encode(h)) == c.encode(h)
    && |c.encode(h)| < MAX_TOKEN
  }

  ghost predicate AllGood(c: Codec, hs: seq<Heartbeat>) {
    forall i :: 0 <= i < |hs| ==> Good(c, hs[i])
  }

  function Line(c: Codec, h: Heartbeat): seq<Byte> { c.encode(h) + [NL] }

  function Lines(c: Codec, hs: seq<Heartbeat>): seq<Byte> {
    if hs == [] then [] else Line(c, hs[0]) + Lines(c, hs[1..])
  }

  function DropCR(line: seq<Byte>): seq<Byte> {
    if line != [] && line[|line| - 1] == CR then line[..|line| - 1] else line
  }

  /** Where the first newline is; |data| when there is none. */
  function FirstNL(data: seq<Byte>): (n: nat)
    ensures n <= |data|
  {
    if data == [] || data[0] == NL then 0 else 1 + FirstNL(data[1..])
  }

  /** One call of Scanner.Scan on the bytes not yet consumed. */
  datatype Token = Eof | Text(line: seq<Byte>, advance: nat) | TooLong

  function Scan(data: seq<Byte>): (t: Token)
    ensures t.Text? ==> 0 < t.advance <= |data|
  {
    var n := FirstNL(data);
    if data == [] then Eof
    else if n >= MAX_TOKEN then TooLong
    else if n < |data| then Text(DropCR(data[..n]), n + 1)
    else Text(DropCR(data), n)
  }

  datatype ReadError = CorruptLine | LineTooLong

  /** Decoding up to limit lines: the loop of Unacked, which scans once more before it looks at
      the limit. */
  function Decode(c: Codec, data: seq<Byte>, limit: nat): Result<seq<Heartbeat>, ReadError>
    decreases |data|
  {
    match Scan(data)
    case Eof => Ok([])
    case TooLong => Err(LineTooLong)
    case Text(line, advance) =>
      if limit == 0 then Ok([])
      else
        match c.decode(line)
        case None => Err(CorruptLine)
        case Some(h) =>
          match Decode(c, data[advance..], limit - 1)
          case Err(e) => Err(e)
          case Ok(hs) => Ok([h] + hs)
  }

  datatype Extent = Extent(bytes: nat) | Unreadable(error: ReadError)

  /** The bytes Ack counts for up to count lines: each token's length and one for its newline. */
  function Measure(data: seq<Byte>, count: nat): Extent
    decreases count
  {
    if count == 0 then Extent(0)
    else
      match Scan(data)
      case Eof => Extent(0)
      case TooLong => Unreadable(LineTooLong)
      case Text(line, advance) =>
        match Measure(data[advance..], count - 1)
        case Unreadable(e) => Unreadable(e)
        case Extent(n) => Extent(|line| + 1 + n)
  }

  lemma {:induction false} FirstNLOfLine(line: seq<Byte>, rest: seq<Byte>)
    requires NL !in line
    ensures FirstNL(line + [NL] + rest) == |line|
  {
    if line == [] {
    } else {
      FirstNLOfLine(line[1..], rest);
      assert (line + [NL] + rest)[1..] == line[1..] + [NL] + rest;
    }
  }

  lemma {:induction false} NoNL(data: seq<Byte>)
    requires NL !in data
    ensures FirstNL(data) == |data|
  {
    if data != [] {
      NoNL(data[1..]);
    }
  }

  /** Scanning a line yields its encoding and leaves what follows it. */
  lemma ScanLine(c: Codec, h: Heartbeat, rest: seq<Byte>)
    requires Good(c, h)
    ensures Scan(Line(c, h) + rest) == Text(c.encode(h), |Line(c, h)|)
    ensures (Line(c, h) + rest)[|Line(c, h)|..] == rest
  {
    var e := c.encode(h);
    FirstNLOfLine(e, rest);
    assert (e + [NL] + rest)[..|e|] == e;
  }

  lemma DecodeLine(c: Codec, h: Heartbeat, rest: seq<Byte>, limit: nat)
    requires Good(c, h)
    ensures Decode(c, Line(c, h) + rest, limit) ==
            if limit == 0 then Ok([])
            else match Decode(c, rest, limit - 1) case Err(e) => Err(e) case Ok(hs) => Ok([h] + hs)
  {
    ScanLine(c, h, rest);
  }

  lemma MeasureLine(c: Codec, h: Heartbeat, rest: seq<Byte>, count: nat)
    requires Good(c, h) && count > 0 && Measure(rest, count - 1).Extent?
    ensures Measure(Line(c, h) + rest, count) == Extent(|Line(c, h)| + Measure(rest, count - 1).bytes)
  {
    ScanLine(c, h, rest);
  }

  /** Round trip: reading a file of lines gives back the first limit heartbeats, in order. */
  lemma {:induction false} DecodeLines(c: Codec, hs: seq<Heartbeat>, limit: nat)
    requires AllGood(c, hs)
    ensures Decode(c, Lines(c, hs), limit) == Ok(Take(hs, limit))
  {
    if hs != [] {
      DecodeLine(c, hs[0], Lines(c, hs[1..]), limit);
      if limit > 0 {
        DecodeLines(c, hs[1..], limit - 1);
        assert Take(hs, limit) == [hs[0]] + Take(hs[1..], limit - 1);
      }
    }
  }

  /** The size of a file of lines. */
  function Bytes(c: Codec, hs: seq<Heartbeat>): nat {
    if hs == [] then 0 else |c.encode(hs[0])| + 1 + Bytes(c, hs[1..])
  }

  lemma {:induction false} BytesOfLines(c: Codec, hs: seq<Heartbeat>)
    ensures |Lines(c, hs)| == Bytes(c, hs)
  {
    if hs != [] {
      BytesOfLines(c, hs[1..]);
    }
  }

  lemma {:induction false} BytesConcat(c: Codec, a: seq<Heartbeat>, b: seq<Heartbeat>)
    ensures Bytes(c, a + b) == Bytes(c, a) + Bytes(c, b)
  {
    LinesConcat(c, a, b);
    BytesOfLines(c, a + b);
    BytesOfLines(c, a);
    BytesOfLines(c, b);
  }

  /** What Ack measures is exactly the bytes of the first count lines. */
  lemma {:induction false} MeasureLines(c: Codec, hs: seq<Heartbeat>, count: nat)
    requires AllGood(c, hs)
    ensures Measure(Lines(c, hs), count) == Extent(Bytes(c, Take(hs, count)))
  {
    if hs == [] {
      assert Lines(c, hs) == [] && Measure([], count) == Extent(0);
    } else if count == 0 {
      assert Take(hs, count) == [];
    } else {
      var h, rest := hs[0], hs[1..];
      MeasureLines(c, rest, count - 1);
      MeasureLine(c, h, Lines(c, rest), count);
      assert Take(hs, count)[0] == h && Take(hs, count)[1..] == Take(rest, count - 1);
    }
  }

  lemma Associative<T>(a: seq<T>, b: seq<T>, c: seq<T>)
    ensures a + b + c == a + (b + c)
  {
  }

  lemma {:induction false} LinesConcat(c: Codec, a: seq<Heartbeat>, b: seq<Heartbeat>)
    ensures Lines(c, a + b) == Lines(c, a) + Lines(c, b)
  {
    if a == [] {
      assert a + b == b;
    } else {
      LinesConcat(c, a[1..], b);
      assert (a + b)[0] == a[0] && (a + b)[1..] == a[1..] + b;
      Associative(Line(c, a[0]), Lines(c, a[1..]), Lines(c, b));
    }
  }

  /** A torn last line makes every read that reaches it fail, and nothing before it. */
  lemma {:induction false} TornTail(c: Codec, hs: seq<Heartbeat>, torn: seq<Byte>, limit: nat)
    requires AllGood(c, hs) && torn != [] && NL !in torn && |torn| < MAX_TOKEN && c.decode(DropCR(torn)) == None
    ensures Decode(c, Lines(c, hs) + torn, limit) == if limit <= |hs| then Ok(hs[..limit]) else Err(CorruptLine)
  {
    if hs == [] {
      assert Lines(c, hs) + torn == torn;
      NoNL(torn);
      assert torn[..|torn|] == torn;
    } else {
      var h, more := hs[0], hs[1..];
      Associative(Line(c, h), Lines(c, more), torn);
      DecodeLine(c, h, Lines(c, more) + torn, limit);
      if limit == 0 {
        assert hs[..0] == [];
      } else {
        TornTail(c, more, torn, limit - 1);
        hide Decode;
        if limit <= |hs| {
          assert hs[..limit] == [h] + more[..limit - 1];
        }
      }
    }
  }

  /** An over-long line makes every read fail that comes to it, the scan past the limit included. */
  lemma {:induction false} LongLineAhead(c: Codec, hs: seq<Heartbeat>, more: seq<Byte>, limit: nat)
    requires AllGood(c, hs) && FirstNL(more) >= 65536
    ensures Decode(c, Lines(c, hs) + more, limit) == if limit < |hs| then Ok(hs[..limit]) else Err(LineTooLong)
  {
    if hs == [] {
      assert Lines(c, hs) + more == more;
    } else {
      var h, rest := hs[0], hs[1..];
      Associative(Line(c, h), Lines(c, rest), more);
      DecodeLine(c, h, Lines(c, rest) + more, limit);
      if limit > 0 {
        LongLineAhead(c, rest, more, limit - 1);
        if limit < |hs| {
          assert hs[..limit] == [h] + rest[..limit - 1];
        }
      }
    }
  }

  /** A carriage return before the newline is not part of the line; and one kept at the end of the last
      line, without a newline, is dropped as well. */
  lemma {:induction false} ScanDropsCR(e: seq<Byte>, rest: seq<Byte>)
    requires NL !in e && |e| + 1 < MAX_TOKEN
    ensures Scan(e + [CR] + [NL] + rest) == Text(e, |e| + 2)
    ensures Scan(e + [CR]) == Text(e, |e| + 1)
  {
    FirstNLOfLine(e + [CR], rest);
    NoNL(e + [CR]);
    assert (e + [CR] + [NL] + rest)[..|e| + 1] == e + [CR];
  }

  /** So Ack counts one byte too few for a line that ends in one: the next read would start inside it. */
  lemma {:induction false} AckMiscountsCR(e: seq<Byte>, rest: seq<Byte>)
    requires NL !in e && |e| + 1 < MAX_TOKEN
    ensures Measure(e + [CR] + [NL] + rest, 1) == Extent(|e| + 1)
  {
    ScanDropsCR(e, rest);
  }
}
