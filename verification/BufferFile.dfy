/** The agent's durable buffer: an append-only file of JSON lines with an acked prefix
    (internal/agent/buffer.go). */
module BufferFile {
  import opened Common
  import opened Protocol
  import opened JsonLines

  /** The limit compact and rotateIfFull read with: 1 << 30. */
  const SCAN_ALL: nat := 0x4000_0000

  // ---------------------------------------------------------------------------------------
  // Specification: the file's bytes and the two offsets, for any bytes at all.
  // ---------------------------------------------------------------------------------------

  datatype File = File(data: seq<Byte>, ackedOff: nat, size: nat)

  /** OpenBuffer starts both offsets at 0 whatever the file holds. */
  function Opened(data: seq<Byte>): File { File(data, 0, 0) }

  function Tail(f: File): seq<Byte> { Drop(f.data, f.ackedOff) }

  function UnackedOf(c: Codec, f: File, limit: int): Result<seq<Heartbeat>, ReadError> {
    if limit <= 0 then Ok([]) else Decode(c, Tail(f), limit)
  }

  function Rewritten(c: Codec, entries: seq<Heartbeat>): File {
    File(Lines(c, entries), 0, |Lines(c, entries)|)
  }

  predicate Full(maxBytes: int, f: File) { f.size - f.ackedOff > maxBytes }

  function Rotated(c: Codec, maxBytes: int, f: File): Result<File, ReadError> {
    if !Full(maxBytes, f) then Ok(f)
    else
      match UnackedOf(c, f, SCAN_ALL)
      case Err(e) => Err(e)
      case Ok(hs) => Ok(Rewritten(c, hs[|hs| / 2..]))
  }

  function Extended(c: Codec, f: File, h: Heartbeat): File {
    f.(data := f.data + Line(c, h), size := f.size + |Line(c, h)|)
  }

  function Appended(c: Codec, maxBytes: int, f: File, h: Heartbeat): Result<File, ReadError> {
    match Rotated(c, maxBytes, f)
    case Err(e) => Err(e)
    case Ok(r) => Ok(Extended(c, r, h))
  }

  /** The acked prefix is at least half of what size says the file holds. */
  predicate Compactable(f: File) { f.ackedOff * 2 >= f.size }

  function Compacted(c: Codec, f: File): (File, Option<ReadError>) {
    match UnackedOf(c, f, SCAN_ALL)
    case Err(e) => (f, Some(e))
    case Ok(hs) => (Rewritten(c, hs), None)
  }

  function Advanced(f: File, n: nat): File { f.(ackedOff := f.ackedOff + n) }

  function Acked(c: Codec, f: File, count: int): (File, Option<ReadError>) {
    if count <= 0 then (f, None)
    else
      match Measure(Tail(f), count)
      case Unreadable(e) => (f, Some(e))
      case Extent(n) =>
        if Compactable(Advanced(f, n)) then Compacted(c, Advanced(f, n)) else (Advanced(f, n), None)
  }

  // ---------------------------------------------------------------------------------------
  // The disk. An inode holds what was written and what the last sync made durable.
  // ---------------------------------------------------------------------------------------

  datatype Inode = Inode(content: seq<Byte>, durable: seq<Byte>)

  datatype Disk = Disk(main: Inode, tmp: Option<Inode>)

  /** write(2): at the end of the file when it was opened with O_APPEND, else at the offset. */
  function Written(content: seq<Byte>, append: bool, pos: nat, p: seq<Byte>): seq<Byte> {
    if append then content + p
    else Take(content, pos) + p + Drop(content, pos + |p|)
  }

  /** Why O_APPEND: without it a write after a partial scan overwrites entries not yet read. */
  lemma WritesWithoutAppendClobber(content: seq<Byte>, pos: nat, p: seq<Byte>)
    requires pos < |content| && p != [] && p[0] != content[pos]
    ensures content <= Written(content, true, pos, p) && !(content <= Written(content, false, pos, p))
  {
    assert Written(content, false, pos, p)[pos] == p[0];
  }

  /** What OpenBuffer may find after a crash: a write not yet synced has happened or not. */
  ghost predicate CrashLeaves(d: Disk, found: seq<Byte>) {
    found == d.main.content || found == d.main.durable
  }

  /** A crash at any disk state of the journal from k on leaves one of three contents. */
  ghost predicate CrashSafe(journal: seq<Disk>, k: nat, before: seq<Byte>, between: seq<Byte>, after: seq<Byte>) {
    forall i, found :: k <= i < |journal| && CrashLeaves(journal[i], found)
                       ==> found == before || found == between || found == after
  }

  /** One system call: create or truncate a file, write to its end, sync it, or rename the temporary
      file over the main one. */
  predicate SysCall(d: Disk, e: Disk) {
    || (e.tmp == d.tmp && e.main == Inode([], d.main.durable))
    || (e.tmp == d.tmp && d.main.content <= e.main.content && e.main.durable == d.main.durable)
    || (e.tmp == d.tmp && e.main == Inode(d.main.content, d.main.content))
    || (e.main == d.main && e.tmp == Some(Inode([], [])))
    || (e.main == d.main && e.tmp.Some? && d.tmp.Some? && d.tmp.value.content <= e.tmp.value.content
        && e.tmp.value.durable == d.tmp.value.durable)
    || (e.main == d.main && d.tmp.Some? && e.tmp == Some(Inode(d.tmp.value.content, d.tmp.value.content)))
    || (d.tmp.Some? && e == Disk(d.tmp.value, None))
  }

  function EndOf(d: Disk, states: seq<Disk>): Disk { if states == [] then d else Last(states) }

  /** The states lead on from d one system call at a time. */
  predicate Path(d: Disk, states: seq<Disk>) {
    states != [] ==> Path(d, Front(states)) && SysCall(EndOf(d, Front(states)), Last(states))
  }

  /** The disk went from d to e through exactly the states that j has more than k. */
  ghost predicate Went(d: Disk, k: seq<Disk>, e: Disk, j: seq<Disk>) {
    k <= j && Path(d, j[|k|..]) && e == EndOf(d, j[|k|..])
  }

  lemma WentNowhere(d: Disk, k: seq<Disk>)
    ensures Went(d, k, d, k)
  {
    assert k[|k|..] == [];
  }

  lemma WentOn(d: Disk, k: seq<Disk>, e: Disk, j: seq<Disk>, f: Disk)
    requires Went(d, k, e, j) && SysCall(e, f)
    ensures Went(d, k, f, j + [f])
  {
    assert (j + [f])[|k|..] == j[|k|..] + [f];
    assert Front(j[|k|..] + [f]) == j[|k|..];
  }

  function Prepend(hs: seq<Heartbeat>, r: Result<seq<Heartbeat>, ReadError>): Result<seq<Heartbeat>, ReadError> {
    match r
    case Err(e) => Err(e)
    case Ok(more) => Ok(hs + more)
  }

  lemma PrependTwice(hs: seq<Heartbeat>, h: Heartbeat, r: Result<seq<Heartbeat>, ReadError>)
    ensures Prepend(hs, Prepend([h], r)) == Prepend(hs + [h], r)
  {
    if r.Ok? {
      assert hs + ([h] + r.value) == hs + [h] + r.value;
    }
  }

  lemma PrependNothing(hs: seq<Heartbeat>, r: Result<seq<Heartbeat>, ReadError>)
    ensures Prepend([], r) == r && Prepend(hs, Ok([])) == Ok(hs)
  {
    if r.Ok? {
      assert [] + r.value == r.value;
    }
    assert hs + [] == hs;
  }

  /** One turn of the read loop. */
  lemma DecodeStep(c: Codec, out: seq<Heartbeat>, rest: seq<Byte>, left: nat)
    ensures match Scan(rest)
            case Eof => Prepend(out, Decode(c, rest, left)) == Ok(out)
            case TooLong => Prepend(out, Decode(c, rest, left)) == Err(LineTooLong)
            case Text(line, advance) =>
              if left == 0 then Prepend(out, Decode(c, rest, left)) == Ok(out)
              else if c.decode(line).None? then Prepend(out, Decode(c, rest, left)) == Err(CorruptLine)
              else Prepend(out, Decode(c, rest, left))
                   == Prepend(out + [c.decode(line).value], Decode(c, rest[advance..], left - 1))
  {
    PrependNothing(out, Ok([]));
    match Scan(rest)
    case Text(line, advance) =>
      if left > 0 && c.decode(line).Some? {
        PrependTwice(out, c.decode(line).value, Decode(c, rest[advance..], left - 1));
      }
    case _ =>
  }

  function Plus(n: nat, e: Extent): Extent {
    match e
    case Unreadable(error) => Unreadable(error)
    case Extent(m) => Extent(n + m)
  }

  /** One turn of Ack's loop. */
  lemma MeasureStep(advanced: nat, rest: seq<Byte>, left: nat)
    ensures if left == 0 then Plus(advanced, Measure(rest, left)) == Extent(advanced) else
            match Scan(rest)
            case Eof => Plus(advanced, Measure(rest, left)) == Extent(advanced)
            case TooLong => Plus(advanced, Measure(rest, left)) == Unreadable(LineTooLong)
            case Text(line, advance) =>
              Plus(advanced, Measure(rest, left)) == Plus(advanced + |line| + 1, Measure(rest[advance..], left - 1))
  {
  }

  /** Unacked's loop over the lines from ackedOff on. */
  method ReadEntries(c: Codec, data: seq<Byte>, limit: nat) returns (r: Result<seq<Heartbeat>, ReadError>)
    ensures r == Decode(c, data, limit)
  {
    var rest, out, left := data, [], limit;
    ghost var whole := Decode(c, data, limit);
    PrependNothing([], whole);
    while true
      invariant whole == Prepend(out, Decode(c, rest, left))
      decreases |rest|
    {
      DecodeStep(c, out, rest, left);
      match Scan(rest)
      case TooLong =>
        return Err(LineTooLong);
      case Eof =>
        return Ok(out);
      case Text(line, advance) =>
        if left == 0 {
          return Ok(out);
        }
        match c.decode(line)
        case None =>
          return Err(CorruptLine);
        case Some(h) =>
          out, rest, left := out + [h], rest[advance..], left - 1;
    }
  }

  /** Ack's loop: how far to advance for up to count lines. */
  method MeasureEntries(data: seq<Byte>, count: nat) returns (whole: Extent)
    ensures whole == Measure(data, count)
  {
    var rest, advanced: nat, left: nat := data, 0, count;
    ghost var goal := Measure(data, count);
    while true
      invariant goal == Plus(advanced, Measure(rest, left))
      decreases left
    {
      MeasureStep(advanced, rest, left);
      if left == 0 {
        return Extent(advanced);
      }
      match Scan(rest)
      case Eof =>
        return Extent(advanced);
      case TooLong =>
        return Unreadable(LineTooLong);
      case Text(line, advance) =>
        advanced, rest, left := advanced + |line| + 1, rest[advance..], left - 1;
    }
  }

  class Buffer {
    const codec: Codec
    const maxBytes: int
    var disk: Disk
    var append: bool  // the open descriptor: its O_APPEND flag and its offset
    var pos: nat
    var ackedOff: nat
    var size: nat
    ghost var journal: seq<Disk>  // every disk state so far

    ghost predicate Valid()
      reads this
    {
      append && disk.main.durable == disk.main.content
    }

    ghost function Contents(): File
      reads this
    {
      File(disk.main.content, ackedOff, size)
    }

    constructor Open(codec: Codec, found: seq<Byte>, maxBytes: int)
      ensures Valid() && this.codec == codec && this.maxBytes == maxBytes
      ensures Contents() == Opened(found) && journal == []
    {
      this.codec, this.maxBytes := codec, maxBytes;
      disk := Disk(Inode(found, found), None);
      append, pos := true, 0;
      ackedOff, size := 0, 0;
      journal := [];
    }

    /** One system call. */
    method Step(d: Disk)
      requires SysCall(disk, d)
      modifies this`disk, this`journal
      ensures disk == d && journal == old(journal) + [d]
      ensures forall c, k :: Went(c, k, old(disk), old(journal)) ==> Went(c, k, disk, journal)
    {
      forall c, k | Went(c, k, disk, journal) ensures Went(c, k, d, journal + [d]) {
        WentOn(c, k, disk, journal, d);
      }
      disk := d;
      journal := journal + [d];
    }

    /** Reading ahead leaves the descriptor's offset anywhere in the file. */
    method ReadAhead()
      modifies this`pos
    {
      var p: nat :| p <= |disk.main.content|;
      pos := p;
    }

    method Unacked(limit: int) returns (r: Result<seq<Heartbeat>, ReadError>)
      requires Valid()
      modifies this`pos
      ensures Valid() && Contents() == old(Contents())
      ensures r == UnackedOf(codec, Contents(), limit)
    {
      if limit <= 0 {
        return Ok([]);
      }
      ReadAhead();
      r := ReadEntries(codec, Drop(disk.main.content, ackedOff), limit);
    }

    method Ack(count: int) returns (error: Option<ReadError>)
      requires Valid()
      modifies this
      ensures Valid() && Contents() == Acked(codec, old(Contents()), count).0
      ensures error == Acked(codec, old(Contents()), count).1
      ensures Went(old(disk), old(journal), disk, journal)
      ensures CrashSafe(journal, |old(journal)|, old(disk.main.content), old(disk.main.content), disk.main.content)
    {
      WentNowhere(disk, journal);
      if count <= 0 {
        return None;
      }
      ghost var f := Contents();
      ReadAhead();
      var measured := MeasureEntries(Drop(disk.main.content, ackedOff), count);
      match measured
      case Unreadable(e) =>
        error := Some(e);
      case Extent(advanced) =>
        ackedOff := ackedOff + advanced;
        assert Contents() == Advanced(f, advanced);
        if ackedOff * 2 >= size {
          error := Compact();
        } else {
          error := None;
        }
    }

    method Compact() returns (error: Option<ReadError>)
      requires Valid()
      modifies this
      ensures Valid() && Contents() == Compacted(codec, old(Contents())).0
      ensures error == Compacted(codec, old(Contents())).1
      ensures Went(old(disk), old(journal), disk, journal)
      ensures CrashSafe(journal, |old(journal)|, old(disk.main.content), old(disk.main.content), disk.main.content)
    {
      WentNowhere(disk, journal);
      var unacked := Unacked(SCAN_ALL);
      match unacked
      case Err(e) =>
        error := Some(e);
      case Ok(hs) =>
        Rewrite(hs);
        error := None;
    }

    /** Replace the file through a synced temporary file and a rename. Whatever the disk state
        at a crash, the file found is the whole old or the whole new one. */
    method Rewrite(entries: seq<Heartbeat>)
      requires Valid()
      modifies this
      ensures Valid() && Contents() == Rewritten(codec, entries)
      ensures Went(old(disk), old(journal), disk, journal)
      ensures CrashSafe(journal, |old(journal)|, old(disk.main.content), old(disk.main.content), Lines(codec, entries))
    {
      ghost var before := disk.main.content;
      WentNowhere(disk, journal);
      hide Went;
      Step(disk.(tmp := Some(Inode([], []))));
      var written := [];
      var n := 0;
      for i := 0 to |entries|
        invariant append && disk == old(disk).(tmp := Some(Inode(written, [])))
        invariant written == Lines(codec, entries[..i]) && n == |written|
        invariant Went(old(disk), old(journal), disk, journal)
        invariant |old(journal)| <= |journal|
        invariant CrashSafe(journal, |old(journal)|, before, before, Lines(codec, entries))
      {
        LinesConcat(codec, entries[..i], [entries[i]]);
        assert entries[..i + 1] == entries[..i] + [entries[i]];
        assert Lines(codec, [entries[i]]) == Line(codec, entries[i]) + [] == Line(codec, entries[i]);
        written := written + Line(codec, entries[i]);
        n := n + |Line(codec, entries[i])|;
        Step(disk.(tmp := Some(Inode(written, []))));
      }
      assert entries[..|entries|] == entries;
      Step(disk.(tmp := Some(Inode(written, written))));  // tf.Sync
      Step(Disk(disk.tmp.value, None));  // os.Rename
      append, pos := true, 0;  // reopened with O_APPEND
      ackedOff := 0;
      size := n;
    }

    method RotateIfFull() returns (error: Option<ReadError>)
      requires Valid()
      modifies this
      ensures Valid()
      ensures match Rotated(codec, maxBytes, old(Contents()))
              case Err(e) => error == Some(e) && Contents() == old(Contents()) && journal == old(journal)
              case Ok(f) => error == None && Contents() == f
      ensures Went(old(disk), old(journal), disk, journal)
      ensures CrashSafe(journal, |old(journal)|, old(disk.main.content), old(disk.main.content), disk.main.content)
    {
      WentNowhere(disk, journal);
      if size - ackedOff <= maxBytes {
        return None;
      }
      var unacked := Unacked(SCAN_ALL);
      match unacked
      case Err(e) =>
        error := Some(e);
      case Ok(hs) =>
        Rewrite(hs[|hs| / 2..]);
        error := None;
    }

    /** The line lands at the end of the file wherever reading left the offset. */
    method Append(h: Heartbeat) returns (error: Option<ReadError>)
      requires Valid()
      modifies this
      ensures Valid()
      ensures match Appended(codec, maxBytes, old(Contents()), h)
              case Err(e) => error == Some(e) && Contents() == old(Contents())
              case Ok(f) => error == None && Contents() == f
      ensures Went(old(disk), old(journal), disk, journal)
      ensures match Rotated(codec, maxBytes, old(Contents()))
              case Err(e) => journal == old(journal)
              case Ok(r) => CrashSafe(journal, |old(journal)|, old(disk.main.content), r.data, disk.main.content)
    {
      error := RotateIfFull();
      if error.Some? {
        return;
      }
      var line := Line(codec, h);
      var content := Written(disk.main.content, append, pos, line);
      Step(disk.(main := disk.main.(content := content)));
      pos := |content|;
      size := size + |line|;
      Step(disk.(main := Inode(content, content)));  // b.f.Sync
    }
  }
}
