/** The event-log sink: log output split into lines, one event each
    (internal/agent/eventlog_windows.go). */
module EventLog {
  import opened Common
  import opened JsonLines

  /** A partial line longer than this after a write is dropped: 64 << 10. */
  const MAX_PARTIAL: nat := 65536

  /** strings.TrimRight(line, "\r"). */
  function TrimCR(line: seq<Byte>): (r: seq<Byte>)
    ensures r <= line && (r == [] || Last(r) != CR)
    ensures forall k :: |r| <= k < |line| ==> line[k] == CR
  {
    if line != [] && Last(line) == CR then TrimCR(Front(line)) else line
  }

  /** The world outside: does the k-th report ever made succeed, and which trimmed lines does
      strings.TrimSpace leave empty. */
  datatype Outside = Outside(works: nat -> bool, blank: seq<Byte> -> bool)

  /** calls are the messages handed to the reporter so far. */
  datatype Sink = Sink(pending: seq<Byte>, broken: bool, calls: seq<seq<Byte>>)

  /** Write's loop: report complete lines until none is left or a report fails. */
  function Drain(o: Outside, s: Sink): Sink
    decreases |s.pending|
  {
    var n := FirstNL(s.pending);
    if n == |s.pending| then s
    else
      var line, rest := TrimCR(s.pending[..n]), s.pending[n + 1..];
      if o.blank(line) then Drain(o, s.(pending := rest))
      else if o.works(|s.calls|) then Drain(o, s.(pending := rest, calls := s.calls + [line]))
      else Sink([], true, s.calls + [line])
  }

  function Capped(s: Sink): Sink { if |s.pending| > MAX_PARTIAL then s.(pending := []) else s }

  function Written(o: Outside, s: Sink, p: seq<Byte>): Sink {
    if s.broken then s else Capped(Drain(o, s.(pending := s.pending + p)))
  }

  class EventLogSink {
    const outside: Outside
    var pending: seq<Byte>
    var broken: bool
    var calls: seq<seq<Byte>>

    ghost function State(): Sink
      reads this
    {
      Sink(pending, broken, calls)
    }

    constructor (outside: Outside)
      ensures this.outside == outside && State() == Sink([], false, [])
    {
      this.outside := outside;
      pending, broken, calls := [], false, [];
    }

    method Warning(msg: seq<Byte>) returns (ok: bool)
      modifies this`calls
      ensures calls == old(calls) + [msg] && ok == outside.works(|old(calls)|)
    {
      ok := outside.works(|calls|);
      calls := calls + [msg];
    }

    /** Takes everything and never fails. */
    method Write(p: seq<Byte>) returns (n: nat)
      modifies this
      ensures n == |p| && State() == Written(outside, old(State()), p)
    {
      if broken {
        return |p|;
      }
      pending := pending + p;
      ghost var goal := Drain(outside, State());
      while true
        invariant !broken && goal == Drain(outside, State())
        decreases |pending|
      {
        var i := FirstNL(pending);
        if i == |pending| {
          break;
        }
        var line := TrimCR(pending[..i]);
        pending := pending[i + 1..];
        if outside.blank(line) {
          continue;
        }
        var ok := Warning(line);
        if !ok {
          broken := true;
          pending := [];
          break;
        }
      }
      assert State() == goal;
      if |pending| > MAX_PARTIAL {
        pending := [];
      }
      return |p|;
    }
  }

  // ---------------------------------------------------------------------------------------
  // What should be reported of a stream, byte by byte: a newline ends a line.
  // ---------------------------------------------------------------------------------------

  /** The non-blank lines so far, trimmed, in order, and the bytes since the last newline. */
  datatype Split = Split(lines: seq<seq<Byte>>, partial: seq<Byte>)

  function Report(o: Outside, line: seq<Byte>): seq<seq<Byte>> {
    if o.blank(TrimCR(line)) then [] else [TrimCR(line)]
  }

  function Feed(o: Outside, s: Split, stream: seq<Byte>): Split
    decreases |stream|
  {
    if stream == [] then s
    else if stream[0] == NL then Feed(o, Split(s.lines + Report(o, s.partial), []), stream[1..])
    else Feed(o, Split(s.lines, s.partial + [stream[0]]), stream[1..])
  }

  function SplitOf(o: Outside, stream: seq<Byte>): Split { Feed(o, Split([], []), stream) }

  lemma {:induction false} FeedConcat(o: Outside, s: Split, a: seq<Byte>, b: seq<Byte>)
    ensures Feed(o, s, a + b) == Feed(o, Feed(o, s, a), b)
    decreases |a|
  {
    if a == [] {
      assert a + b == b;
    } else {
      assert (a + b)[0] == a[0] && (a + b)[1..] == a[1..] + b;
      if a[0] == NL {
        FeedConcat(o, Split(s.lines + Report(o, s.partial), []), a[1..], b);
      } else {
        FeedConcat(o, Split(s.lines, s.partial + [a[0]]), a[1..], b);
      }
    }
  }

  /** Earlier lines stay in front. */
  lemma {:induction false} FeedShift(o: Outside, s: Split, stream: seq<Byte>)
    ensures Feed(o, s, stream).lines == s.lines + Feed(o, Split([], s.partial), stream).lines
    ensures Feed(o, s, stream).partial == Feed(o, Split([], s.partial), stream).partial
    decreases |stream|
  {
    if stream == [] {
      assert s.lines + [] == s.lines;
    } else if stream[0] == NL {
      var line, rest := Report(o, s.partial), stream[1..];
      FeedShift(o, Split(s.lines + line, []), rest);
      FeedShift(o, Split([] + line, []), rest);
      Associative(s.lines, line, Feed(o, Split([], []), rest).lines);
      assert [] + line == line;
    } else {
      FeedShift(o, Split(s.lines, s.partial + [stream[0]]), stream[1..]);
    }
  }

  /** The bytes kept are a stretch of the stream without a newline. */
  lemma {:induction false} PartialIsRun(o: Outside, s: Split, stream: seq<Byte>)
    requires NL !in s.partial
    ensures var partial := Feed(o, s, stream).partial;
            && NL !in partial && |partial| <= |s.partial + stream|
            && (s.partial + stream)[|s.partial + stream| - |partial|..] == partial
    decreases |stream|
  {
    if stream != [] {
      if stream[0] == NL {
        PartialIsRun(o, Split(s.lines + Report(o, s.partial), []), stream[1..]);
      } else {
        assert s.partial + [stream[0]] + stream[1..] == s.partial + stream;
        PartialIsRun(o, Split(s.lines, s.partial + [stream[0]]), stream[1..]);
      }
    }
  }

  // ---------------------------------------------------------------------------------------
  // What is reported.
  // ---------------------------------------------------------------------------------------

  /** The reports made of lines when k were made before: all up to and including the first that
      fails. */
  function Attempted(o: Outside, k: nat, lines: seq<seq<Byte>>): seq<seq<Byte>>
    decreases |lines|
  {
    if lines == [] then []
    else if o.works(k) then [lines[0]] + Attempted(o, k + 1, lines[1..])
    else [lines[0]]
  }

  predicate Fails(o: Outside, k: nat, lines: seq<seq<Byte>>)
    decreases |lines|
  {
    lines != [] && (!o.works(k) || Fails(o, k + 1, lines[1..]))
  }

  /** A sink that has been through more lines and is left with some bytes. */
  function Reported(o: Outside, s: Sink, lines: seq<seq<Byte>>, left: seq<Byte>): Sink {
    var fails := Fails(o, |s.calls|, lines);
    Sink(if fails then [] else left, fails, s.calls + Attempted(o, |s.calls|, lines))
  }

  lemma ReportedCons(o: Outside, s: Sink, line: seq<Byte>, more: seq<seq<Byte>>, left: seq<Byte>)
    ensures Reported(o, s, [line] + more, left) ==
            if o.works(|s.calls|) then Reported(o, s.(calls := s.calls + [line]), more, left)
            else Sink([], true, s.calls + [line])
  {
    assert ([line] + more)[1..] == more;
    Associative(s.calls, [line], Attempted(o, |s.calls| + 1, more));
  }

  lemma ReportedNothing(o: Outside, s: Sink, left: seq<Byte>)
    ensures Reported(o, s, [], left) == Sink(left, false, s.calls)
  {
    assert s.calls + [] == s.calls;
  }

  lemma FirstNLAfter(part: seq<Byte>, rest: seq<Byte>)
    requires NL !in part
    ensures FirstNL(part) == |part| && FirstNL(part + [NL] + rest) == |part|
  {
    NoNL(part);
    FirstNLOfLine(part, rest);
  }

  /** One complete line of the loop. */
  lemma {:induction false} DrainLine(o: Outside, s: Sink, part: seq<Byte>, rest: seq<Byte>)
    requires NL !in part && s.pending == part + [NL] + rest
    ensures Drain(o, s) ==
            if o.blank(TrimCR(part)) then Drain(o, s.(pending := rest))
            else if o.works(|s.calls|) then Drain(o, s.(pending := rest, calls := s.calls + [TrimCR(part)]))
            else Sink([], true, s.calls + [TrimCR(part)])
  {
    FirstNLAfter(part, rest);
    assert s.pending[..|part|] == part && s.pending[|part| + 1..] == rest;
  }

  /** A write drains exactly the lines of what is pending, as far as reports succeed. */
  lemma {:induction false} DrainReports(o: Outside, s: Sink, part: seq<Byte>, p: seq<Byte>)
    requires !s.broken && NL !in part && s.pending == part + p
    ensures var split := Feed(o, Split([], part), p); Drain(o, s) == Reported(o, s, split.lines, split.partial)
    decreases |p|, 0
  {
    if p == [] {
      assert part + p == part;
      FirstNLAfter(part, []);
      ReportedNothing(o, s, part);
    } else if p[0] != NL {
      assert part + [p[0]] + p[1..] == s.pending;
      DrainReports(o, s, part + [p[0]], p[1..]);
    } else {
      DrainLineReports(o, s, part, p[1..]);
    }
  }

  lemma {:induction false} DrainLineReports(o: Outside, s: Sink, part: seq<Byte>, rest: seq<Byte>)
    requires !s.broken && NL !in part && s.pending == part + ([NL] + rest)
    ensures var split := Feed(o, Split([], part), [NL] + rest);
            Drain(o, s) == Reported(o, s, split.lines, split.partial)
    decreases |rest|, 1
  {
    var line, split := TrimCR(part), Feed(o, Split([], []), rest);
    Associative(part, [NL], rest);
    DrainLine(o, s, part, rest);
    assert ([NL] + rest)[1..] == rest && [] + Report(o, part) == Report(o, part) && [] + rest == rest;
    FeedShift(o, Split(Report(o, part), []), rest);
    if o.blank(line) {
      assert [] + split.lines == split.lines;
      DrainReports(o, s.(pending := rest), [], rest);
    } else {
      ReportedCons(o, s, line, split.lines, split.partial);
      if o.works(|s.calls|) {
        DrainReports(o, s.(pending := rest, calls := s.calls + [line]), [], rest);
      }
    }
  }

  lemma {:induction false} AttemptedConcat(o: Outside, k: nat, a: seq<seq<Byte>>, b: seq<seq<Byte>>)
    ensures Fails(o, k, a + b) <==> Fails(o, k, a) || Fails(o, k + |a|, b)
    ensures Attempted(o, k, a + b) == if Fails(o, k, a) then Attempted(o, k, a)
                                      else Attempted(o, k, a) + Attempted(o, k + |a|, b)
    ensures !Fails(o, k, a) ==> Attempted(o, k, a) == a
    decreases |a|
  {
    if a == [] {
      assert a + b == b && [] + Attempted(o, k, b) == Attempted(o, k, b);
    } else {
      AttemptedConcat(o, k + 1, a[1..], b);
      assert (a + b)[0] == a[0] && (a + b)[1..] == a[1..] + b;
      Associative([a[0]], Attempted(o, k + 1, a[1..]), Attempted(o, k + |a|, b));
      assert [a[0]] + a[1..] == a;
    }
  }

  // ---------------------------------------------------------------------------------------
  // Any number of writes.
  // ---------------------------------------------------------------------------------------

  function Concat(chunks: seq<seq<Byte>>): seq<Byte> {
    if chunks == [] then [] else Concat(Front(chunks)) + Last(chunks)
  }

  function After(o: Outside, chunks: seq<seq<Byte>>): Sink {
    if chunks == [] then Sink([], false, []) else Written(o, After(o, Front(chunks)), Last(chunks))
  }

  /** No stretch without a newline is longer than MAX_PARTIAL. */
  ghost predicate ShortRuns(stream: seq<Byte>) {
    forall i, j :: 0 <= i <= j <= |stream| && NL !in stream[i..j] ==> j - i <= MAX_PARTIAL
  }

  /** The sink stands for the stream written so far. */
  ghost predicate Tracks(o: Outside, s: Sink, split: Split) {
    && s.calls == Attempted(o, 0, split.lines)
    && (s.broken <==> Fails(o, 0, split.lines))
    && s.pending == if s.broken then [] else split.partial
  }

  /** One write, before the cap: what is reported and what is left. */
  lemma WriteReports(o: Outside, s: Sink, split: Split, p: seq<Byte>)
    requires Tracks(o, s, split) && NL !in split.partial
    ensures var after, now := Written(o, s, p), Feed(o, split, p);
            && after.calls == Attempted(o, 0, now.lines)
            && (after.broken <==> Fails(o, 0, now.lines))
            && after.pending == if after.broken || |now.partial| > MAX_PARTIAL then [] else now.partial
  {
    hide Feed, Drain;
    var more := Feed(o, Split([], split.partial), p);
    FeedShift(o, split, p);
    AttemptedConcat(o, 0, split.lines, more.lines);
    if !s.broken {
      DrainReports(o, s.(pending := s.pending + p), s.pending, p);
    }
  }

  lemma WriteTracks(o: Outside, s: Sink, split: Split, p: seq<Byte>)
    requires Tracks(o, s, split) && NL !in split.partial
    requires |Feed(o, split, p).partial| <= MAX_PARTIAL
    ensures Tracks(o, Written(o, s, p), Feed(o, split, p))
  {
    WriteReports(o, s, split, p);
  }

  lemma ShortRunsPrefix(stream: seq<Byte>, p: seq<Byte>)
    requires ShortRuns(stream + p)
    ensures ShortRuns(stream)
  {
    forall i, j | 0 <= i <= j <= |stream| && NL !in stream[i..j] ensures j - i <= MAX_PARTIAL {
      assert (stream + p)[i..j] == stream[i..j];
    }
  }

  lemma PartialIsShort(o: Outside, stream: seq<Byte>)
    requires ShortRuns(stream)
    ensures |SplitOf(o, stream).partial| <= MAX_PARTIAL && NL !in SplitOf(o, stream).partial
  {
    var partial := SplitOf(o, stream).partial;
    PartialIsRun(o, Split([], []), stream);
    assert [] + stream == stream && stream[|stream| - |partial|..|stream|] == partial;
  }

  lemma {:induction false} AfterTracks(o: Outside, chunks: seq<seq<Byte>>)
    requires ShortRuns(Concat(chunks))
    ensures Tracks(o, After(o, chunks), SplitOf(o, Concat(chunks)))
  {
    if chunks != [] {
      var before, p := Concat(Front(chunks)), Last(chunks);
      ShortRunsPrefix(before, p);
      AfterTracks(o, Front(chunks));
      PartialIsShort(o, before);
      PartialIsShort(o, before + p);
      FeedConcat(o, Split([], []), before, p);
      WriteTracks(o, After(o, Front(chunks)), SplitOf(o, before), p);
    }
  }

  /** MAIN: however a stream is cut into writes, the reports made are its non-blank lines in
      order, up to and including the first that fails; a working reporter gets them all. */
  lemma {:induction false} ChunkingDoesNotMatter(o: Outside, chunks: seq<seq<Byte>>)
    requires ShortRuns(Concat(chunks))
    ensures var split, s := SplitOf(o, Concat(chunks)), After(o, chunks);
            && s.calls == Attempted(o, 0, split.lines)
            && (s.broken <==> Fails(o, 0, split.lines))
            && (!s.broken ==> s.calls == split.lines && s.pending == split.partial)
  {
    AfterTracks(o, chunks);
    AttemptedConcat(o, 0, SplitOf(o, Concat(chunks)).lines, []);
  }

  /** What is kept after a write never exceeds 64 KiB, and nothing is reported after a failure. */
  lemma {:induction false} KeptIsBounded(o: Outside, chunks: seq<seq<Byte>>, more: seq<Byte>)
    ensures |After(o, chunks).pending| <= 65536
    ensures After(o, chunks).broken ==> After(o, chunks + [more]) == After(o, chunks)
  {
    assert Front(chunks + [more]) == chunks;
    if chunks != [] {
      KeptIsBounded(o, Front(chunks), more);
    }
  }

  /** A longer run does depend on chunking: written whole it is reported, cut before its newline
      it is dropped. */
  lemma {:induction false} LongRunIsLostWhenCut(o: Outside, run: seq<Byte>)
    requires NL !in run && |run| > MAX_PARTIAL && o.works(0) && o.blank([]) && !o.blank(TrimCR(run))
    ensures After(o, [run + [NL]]).calls == [TrimCR(run)]
    ensures After(o, [run, [NL]]).calls == []
  {
    WrittenWhole(o, run);
    WrittenCut(o, run);
  }

  lemma DrainNothing(o: Outside, calls: seq<seq<Byte>>)
    ensures Drain(o, Sink([], false, calls)) == Sink([], false, calls)
  {
  }

  lemma WrittenWhole(o: Outside, run: seq<Byte>)
    requires NL !in run && o.works(0) && !o.blank(TrimCR(run))
    ensures After(o, [run + [NL]]).calls == [TrimCR(run)]
  {
    var p := run + [NL];
    assert Front([p]) == [] && [] + p == p && run + [NL] + [] == p;
    DrainLine(o, Sink(p, false, []), run, []);
    assert [] + [TrimCR(run)] == [TrimCR(run)];
    DrainNothing(o, [TrimCR(run)]);
  }

  lemma WrittenCut(o: Outside, run: seq<Byte>)
    requires NL !in run && |run| > MAX_PARTIAL && o.blank([])
    ensures After(o, [run, [NL]]).calls == []
  {
    FirstNLAfter(run, []);
    assert Front([run, [NL]]) == [run] && Front([run]) == [] && [] + run == run;
    assert Drain(o, Sink(run, false, [])) == Sink(run, false, []);
    assert After(o, [run]) == Sink([], false, []);
    assert [] + [NL] == [NL] && [] + [NL] + [] == [NL];
    DrainLine(o, Sink([NL], false, []), [], []);
    DrainNothing(o, []);
  }

  // ---------------------------------------------------------------------------------------
  // Exactly which streams may be cut anywhere.
  // ---------------------------------------------------------------------------------------

  /** A line of the stream and the newline that ends it. */
  predicate EndedLine(stream: seq<Byte>, i: int, j: int) {
    0 <= i <= j < |stream| && (i == 0 || stream[i - 1] == NL) && NL !in stream[i..j] && stream[j] == NL
  }

  /** What is left of an over-long line when some of it, more than MAX_PARTIAL, was dropped. */
  ghost predicate AllBlank(o: Outside, line: seq<Byte>) {
    o.blank(TrimCR(line)) && forall k :: MAX_PARTIAL < k <= |line| ==> o.blank(TrimCR(line[k..]))
  }

  /** Every over-long line that a newline ends is blank, and so is what dropping can leave of it; or
      it comes when the reporter has failed already. */
  ghost predicate Cuttable(o: Outside, stream: seq<Byte>) {
    forall i, j :: EndedLine(stream, i, j) && j - i > MAX_PARTIAL ==>
      AllBlank(o, stream[i..j]) || Fails(o, 0, SplitOf(o, stream[..i]).lines)
  }

  /** Any way of cutting the stream into writes reports its lines. */
  ghost predicate AnyCutReports(o: Outside, stream: seq<Byte>) {
    forall chunks :: Concat(chunks) == stream ==>
      After(o, chunks).calls == Attempted(o, 0, SplitOf(o, stream).lines)
  }

  /** All of the current line, or what is left of one that was over-long. */
  ghost predicate IsRest(pending: seq<Byte>, partial: seq<Byte>) {
    pending == partial || exists k :: MAX_PARTIAL < k <= |partial| && pending == partial[k..]
  }

  ghost predicate Follows(o: Outside, s: Sink, split: Split) {
    && s.calls == Attempted(o, 0, split.lines)
    && (s.broken <==> Fails(o, 0, split.lines))
    && (!s.broken ==> IsRest(s.pending, split.partial))
  }

  /** Where the current line starts. */
  lemma {:induction false} PartialStart(o: Outside, stream: seq<Byte>)
    ensures var split := SplitOf(o, stream);
            var i := |stream| - |split.partial|;
            && 0 <= i && (i == 0 || stream[i - 1] == NL)
            && NL !in split.partial && stream[i..] == split.partial
            && SplitOf(o, stream[..i]) == Split(split.lines, [])
  {
    if stream == [] {
      assert stream[..0] == [];
    } else {
      var front, b := Front(stream), Last(stream);
      var i := |front| - |SplitOf(o, front).partial|;
      PartialStart(o, front);
      SplitSnoc(o, front, b);
      assert stream == front + [b];
      if b == NL {
        assert stream[..|stream|] == stream;
      } else {
        assert stream[..i] == front[..i] && stream[i..] == front[i..] + [b];
        assert i == 0 || stream[i - 1] == front[i - 1];
      }
    }
  }

  lemma {:induction false} SplitSnoc(o: Outside, front: seq<Byte>, b: Byte)
    ensures SplitOf(o, []) == Split([], [])
    ensures var split := SplitOf(o, front);
            SplitOf(o, front + [b]) == if b == NL then Split(split.lines + Report(o, split.partial), [])
                                       else Split(split.lines, split.partial + [b])
  {
    FeedConcat(o, Split([], []), front, [b]);
    assert [b][1..] == [];
  }

  /** Feeding the rest of a line instead of all of it reports the same when the line is blank. */
  lemma {:induction false} RestFeeds(o: Outside, partial: seq<Byte>, k: nat, p: seq<Byte>)
    requires MAX_PARTIAL < k <= |partial|
    requires forall n :: 0 <= n < |p| && p[n] == NL && NL !in p[..n] ==> AllBlank(o, partial + p[..n])
    ensures var all, rest := Feed(o, Split([], partial), p), Feed(o, Split([], partial[k..]), p);
            rest.lines == all.lines && IsRest(rest.partial, all.partial)
    decreases |p|
  {
    if p != [] {
      if p[0] == NL {
        assert p[..0] == [] && partial + [] == partial;
        assert AllBlank(o, partial + p[..0]);
      } else {
        var longer := partial + [p[0]];
        assert longer[k..] == partial[k..] + [p[0]];
        forall n | 0 <= n < |p[1..]| && p[1..][n] == NL && NL !in p[1..][..n]
          ensures AllBlank(o, longer + p[1..][..n])
        {
          assert p[..n + 1] == [p[0]] + p[1..][..n];
          assert longer + p[1..][..n] == partial + p[..n + 1];
        }
        RestFeeds(o, longer, k, p[1..]);
      }
    }
  }

  lemma {:induction false} CuttablePrefix(o: Outside, stream: seq<Byte>, p: seq<Byte>)
    requires Cuttable(o, stream + p)
    ensures Cuttable(o, stream)
  {
    forall i, j | EndedLine(stream, i, j) && j - i > MAX_PARTIAL
      ensures AllBlank(o, stream[i..j]) || Fails(o, 0, SplitOf(o, stream[..i]).lines)
    {
      assert (stream + p)[i..j] == stream[i..j] && (stream + p)[..i] == stream[..i];
      assert EndedLine(stream + p, i, j);
    }
  }

  /** The line that p completes is one of the stream's. */
  lemma {:induction false} CompletedLine(o: Outside, stream: seq<Byte>, p: seq<Byte>, n: nat)
    requires Cuttable(o, stream + p) && !Fails(o, 0, SplitOf(o, stream).lines)
    requires n < |p| && p[n] == NL && NL !in p[..n] && |SplitOf(o, stream).partial| > MAX_PARTIAL
    ensures AllBlank(o, SplitOf(o, stream).partial + p[..n])
  {
    var split := SplitOf(o, stream);
    var i, j := |stream| - |split.partial|, |stream| + n;
    PartialStart(o, stream);
    assert (stream + p)[i..j] == split.partial + p[..n] && (stream + p)[..i] == stream[..i];
    assert EndedLine(stream + p, i, j);
  }

  /** What p adds to the reports is the same from the rest of the line as from all of it. */
  lemma {:induction false} RestReports(o: Outside, stream: seq<Byte>, pending: seq<Byte>, p: seq<Byte>)
    requires var split := SplitOf(o, stream);
             !Fails(o, 0, split.lines) && IsRest(pending, split.partial) && Cuttable(o, stream + p)
    ensures var all := Feed(o, Split([], SplitOf(o, stream).partial), p);
            var rest := Feed(o, Split([], pending), p);
            rest.lines == all.lines && IsRest(rest.partial, all.partial)
  {
    var partial := SplitOf(o, stream).partial;
    if pending != partial {
      var k :| MAX_PARTIAL < k <= |partial| && pending == partial[k..];
      forall n | 0 <= n < |p| && p[n] == NL && NL !in p[..n] ensures AllBlank(o, partial + p[..n]) {
        CompletedLine(o, stream, p, n);
      }
      RestFeeds(o, partial, k, p);
    }
  }

  lemma {:induction false} WrittenIs(o: Outside, s: Sink, p: seq<Byte>)
    requires !s.broken && NL !in s.pending
    ensures var rest := Feed(o, Split([], s.pending), p);
            Written(o, s, p) == Capped(Reported(o, s, rest.lines, rest.partial))
  {
    DrainReports(o, s.(pending := s.pending + p), s.pending, p);
  }

  lemma {:induction false} WriteFollows(o: Outside, s: Sink, stream: seq<Byte>, p: seq<Byte>)
    requires Follows(o, s, SplitOf(o, stream)) && Cuttable(o, stream + p)
    ensures Follows(o, Written(o, s, p), SplitOf(o, stream + p))
  {
    var split, before := SplitOf(o, stream), Split([], []);
    FeedConcat(o, before, stream, p);
    FeedShift(o, split, p);
    var all := Feed(o, Split([], split.partial), p);
    AttemptedConcat(o, 0, split.lines, all.lines);
    if !s.broken {
      PartialStart(o, stream);
      RestReports(o, stream, s.pending, p);
      var rest := Feed(o, Split([], s.pending), p);
      WrittenIs(o, s, p);
      RestCapped(rest.partial, all.partial);
      hide Feed, Drain, Written, Cuttable, IsRest;
    }
  }

  /** A rest that is over-long may be dropped. */
  lemma RestCapped(pending: seq<Byte>, partial: seq<Byte>)
    requires IsRest(pending, partial)
    ensures IsRest(if |pending| > MAX_PARTIAL then [] else pending, partial)
  {
    if |pending| > MAX_PARTIAL {
      assert partial[|partial|..] == [];
    }
  }

  lemma {:induction false} AfterFollows(o: Outside, chunks: seq<seq<Byte>>)
    requires Cuttable(o, Concat(chunks))
    ensures Follows(o, After(o, chunks), SplitOf(o, Concat(chunks)))
  {
    if chunks != [] {
      var before, p := Concat(Front(chunks)), Last(chunks);
      CuttablePrefix(o, before, p);
      AfterFollows(o, Front(chunks));
      WriteFollows(o, After(o, Front(chunks)), before, p);
    }
  }

  // The other way: a line that is not blank, or leaves something that is not, can be cut.

  lemma {:induction false} AttemptedIs(o: Outside, k: nat, lines: seq<seq<Byte>>)
    ensures var n := |Attempted(o, k, lines)|;
            && n <= |lines| && Attempted(o, k, lines) == lines[..n]
            && (forall m :: k <= m < k + n - 1 ==> o.works(m))
            && (if Fails(o, k, lines) then n > 0 && !o.works(k + n - 1)
                else n == |lines| && forall m :: k <= m < k + n ==> o.works(m))
    decreases |lines|
  {
    if lines != [] && o.works(k) {
      AttemptedIs(o, k + 1, lines[1..]);
    }
  }

  ghost predicate NoRepeats(lines: seq<seq<Byte>>) {
    forall m :: 0 <= m < |lines| - 1 ==> lines[m] != lines[m + 1]
  }

  /** Leaving out a line that would be attempted shows. */
  lemma {:induction false} LossShows(o: Outside, a: seq<seq<Byte>>, x: seq<Byte>, b: seq<seq<Byte>>)
    requires !Fails(o, 0, a) && (Fails(o, 0, a + [x] + b) ==> NoRepeats(a + [x] + b))
    ensures Attempted(o, 0, a + b) != Attempted(o, 0, a + [x] + b)
  {
    var lines, fewer := a + [x] + b, a + b;
    AttemptedIs(o, 0, a);
    AttemptedIs(o, 0, lines);
    AttemptedIs(o, 0, fewer);
    var n := |Attempted(o, 0, lines)|;
    if |Attempted(o, 0, fewer)| == n {
      assert n > |a|;
      assert lines[..n][|a|] == x;
      assert fewer[..n][|a|] == lines[|a| + 1];
    }
  }

  /** And so does one more, as long as no report fails. */
  lemma {:induction false} GainShows(o: Outside, a: seq<seq<Byte>>, y: seq<Byte>, b: seq<seq<Byte>>)
    requires !Fails(o, 0, a + b)
    ensures Attempted(o, 0, a + [y] + b) != Attempted(o, 0, a + b)
  {
    AttemptedIs(o, 0, a + b);
    AttemptedIs(o, 0, a + [y] + b);
  }

  /** The lines on both sides of one. */
  lemma {:induction false} SplitAround(o: Outside, before: seq<Byte>, line: seq<Byte>, rest: seq<Byte>)
    requires SplitOf(o, before).partial == [] && NL !in line
    ensures Feed(o, SplitOf(o, before), line + [NL] + rest).lines
            == SplitOf(o, before).lines + Report(o, line) + SplitOf(o, rest).lines
  {
    var split := SplitOf(o, before);
    FeedConcat(o, split, line + [NL], rest);
    FeedConcat(o, split, line, [NL]);
    FeedLine(o, split, line);
    assert [NL][1..] == [] && [] + line == line;
    FeedShift(o, Split(split.lines + Report(o, line), []), rest);
  }

  lemma {:induction false} FeedLine(o: Outside, s: Split, line: seq<Byte>)
    requires NL !in line
    ensures Feed(o, s, line) == Split(s.lines, s.partial + line)
    decreases |line|
  {
    if line == [] {
      assert s.partial + line == s.partial;
    } else {
      FeedLine(o, Split(s.lines, s.partial + [line[0]]), line[1..]);
      assert s.partial + [line[0]] + line[1..] == s.partial + line;
    }
  }

  /** Three writes that drop the first k bytes of an over-long line. */
  lemma {:induction false} CutInside(o: Outside, before: seq<Byte>, line: seq<Byte>, k: nat, rest: seq<Byte>)
    requires SplitOf(o, before).partial == [] && !Fails(o, 0, SplitOf(o, before).lines)
    requires NL !in line && MAX_PARTIAL < k <= |line|
    ensures var chunks := [before, line[..k], line[k..] + [NL] + rest];
            && Concat(chunks) == before + (line + [NL] + rest)
            && After(o, chunks).calls
               == Attempted(o, 0, SplitOf(o, before).lines + Report(o, line[k..]) + SplitOf(o, rest).lines)
  {
    var split, p := SplitOf(o, before), line[k..] + [NL] + rest;
    var chunks := [before, line[..k], p];
    assert Front(chunks) == [before, line[..k]] && Front([before, line[..k]]) == [before] && Front([before]) == [];
    assert Concat([before]) == [] + before == before;
    assert Concat([before, line[..k]]) == before + line[..k];
    assert before + line[..k] + p == before + (line + [NL] + rest);
    var start := Sink([], false, []);
    WriteReports(o, start, Split([], []), before);
    var s := Written(o, start, before);
    assert After(o, []) == start && After(o, [before]) == s;
    assert Tracks(o, s, split);
    FeedLine(o, split, line[..k]);
    WriteReports(o, s, split, line[..k]);
    assert After(o, [before, line[..k]]) == s;
    WriteReports(o, s, split, p);
    SplitAround(o, before, line[k..], rest);
  }

  ghost predicate SuffixesBlank(o: Outside) {
    forall s, k :: 0 <= k <= |s| && o.blank(s) ==> o.blank(s[k..])
  }

  lemma {:induction false} TrimSuffix(line: seq<Byte>, k: nat)
    requires k <= |line|
    ensures var t := TrimCR(line); TrimCR(line[k..]) == if k <= |t| then t[k..] else []
  {
    if k < |line| && Last(line) == CR {
      assert Front(line[k..]) == Front(line)[k..];
      TrimSuffix(Front(line), k);
    } else if k == |line| && line != [] && Last(line) == CR {
      assert line[k..] == [];
    }
  }

  lemma {:induction false} SomeCutShows(o: Outside, before: seq<Byte>, line: seq<Byte>, rest: seq<Byte>)
    requires o.blank([]) && NL !in line && |line| > MAX_PARTIAL && !AllBlank(o, line)
    requires SplitOf(o, before).partial == [] && !Fails(o, 0, SplitOf(o, before).lines)
    requires var lines := SplitOf(o, before).lines + Report(o, line) + SplitOf(o, rest).lines;
             Fails(o, 0, lines) ==> SuffixesBlank(o) && NoRepeats(lines)
    ensures exists chunks :: Concat(chunks) == before + (line + [NL] + rest) &&
              After(o, chunks).calls
              != Attempted(o, 0, SplitOf(o, before).lines + Report(o, line) + SplitOf(o, rest).lines)
  {
    var a, b := SplitOf(o, before).lines, SplitOf(o, rest).lines;
    assert a + [] + b == a + b;
    if !o.blank(TrimCR(line)) {
      CutInside(o, before, line, |line|, rest);
      assert line[|line|..] == [];
      LossShows(o, a, TrimCR(line), b);
    } else {
      var k :| MAX_PARTIAL < k <= |line| && !o.blank(TrimCR(line[k..]));
      TrimSuffix(line, k);
      CutInside(o, before, line, k, rest);
      GainShows(o, a, TrimCR(line[k..]), b);
    }
  }

  /** The stream around one of its lines. */
  lemma {:induction false} AroundLine(o: Outside, stream: seq<Byte>, i: nat, j: nat)
    requires EndedLine(stream, i, j)
    ensures var before, line, rest := stream[..i], stream[i..j], stream[j + 1..];
            && stream == before + (line + [NL] + rest)
            && SplitOf(o, before).partial == []
            && SplitOf(o, stream).lines == SplitOf(o, before).lines + Report(o, line) + SplitOf(o, rest).lines
  {
    var before, line, rest := stream[..i], stream[i..j], stream[j + 1..];
    assert stream == before + (line + [NL] + rest);
    EndsClean(o, before);
    FeedConcat(o, Split([], []), before, line + [NL] + rest);
    SplitAround(o, before, line, rest);
  }

  lemma {:induction false} EndsClean(o: Outside, before: seq<Byte>)
    requires before == [] || Last(before) == NL
    ensures SplitOf(o, before).partial == []
  {
    PartialStart(o, before);
  }

  /** MAIN: every way of cutting a stream reports the same lines if and only if each over-long line
      that is ended, before the reporter has failed, is blank through and through. When a report does
      fail, a difference shows only if neighbouring lines differ and nothing unblank is left of a blank
      line. */
  lemma {:induction false} CuttingIsHarmlessIff(o: Outside, stream: seq<Byte>)
    requires o.blank([])
    requires Fails(o, 0, SplitOf(o, stream).lines) ==> SuffixesBlank(o) && NoRepeats(SplitOf(o, stream).lines)
    ensures AnyCutReports(o, stream) <==> Cuttable(o, stream)
  {
    if Cuttable(o, stream) {
      CuttableReports(o, stream);
    } else {
      var i, j :| EndedLine(stream, i, j) && j - i > MAX_PARTIAL && !AllBlank(o, stream[i..j])
                  && !Fails(o, 0, SplitOf(o, stream[..i]).lines);
      AroundLine(o, stream, i, j);
      SomeCutShows(o, stream[..i], stream[i..j], stream[j + 1..]);
    }
  }

  /** One way round it holds for every reporter. */
  lemma {:induction false} CuttableReports(o: Outside, stream: seq<Byte>)
    requires Cuttable(o, stream)
    ensures AnyCutReports(o, stream)
  {
    forall chunks | Concat(chunks) == stream
      ensures After(o, chunks).calls == Attempted(o, 0, SplitOf(o, stream).lines)
    {
      AfterFollows(o, chunks);
    }
  }

  /** MAIN: without any such proviso, over all reporters: every cutting reports the same lines, whoever
      takes the reports, if and only if every over-long ended line is blank through and through. */
  lemma {:induction false} CuttingIsHarmlessForAllIff(o: Outside, stream: seq<Byte>)
    requires o.blank([])
    ensures (forall works: nat -> bool :: AnyCutReports(o.(works := works), stream)) <==>
            forall i, j :: EndedLine(stream, i, j) && j - i > MAX_PARTIAL ==> AllBlank(o, stream[i..j])
  {
    var willing := o.(works := (k: nat) => true);
    AttemptedIs(willing, 0, SplitOf(willing, stream).lines);
    CuttingIsHarmlessIff(willing, stream);
    forall i, j | EndedLine(stream, i, j) ensures !Fails(willing, 0, SplitOf(willing, stream[..i]).lines) {
      AttemptedIs(willing, 0, SplitOf(willing, stream[..i]).lines);
    }
    forall line ensures AllBlank(willing, line) == AllBlank(o, line) {
    }
    if forall i, j :: EndedLine(stream, i, j) && j - i > MAX_PARTIAL ==> AllBlank(o, stream[i..j]) {
      forall works: nat -> bool ensures AnyCutReports(o.(works := works), stream) {
        var other := o.(works := works);
        forall line ensures AllBlank(other, line) == AllBlank(o, line) {
        }
        CuttableReports(other, stream);
      }
    } else {
      assert !Cuttable(willing, stream);
    }
  }

  // The proviso for a failing reporter is needed: a line lost before one of the same text is not missed.

  /** A line one byte over the limit, then a shorter one. */
  function TwoLines(line: seq<Byte>, y: seq<Byte>): seq<Byte> { line + [NL] + (y + [NL]) }

  ghost predicate Alike(o: Outside, line: seq<Byte>, y: seq<Byte>) {
    && !o.works(0) && o.blank([]) && !o.blank(TrimCR(y)) && TrimCR(line) == TrimCR(y)
    && NL !in line && NL !in y && |line| == MAX_PARTIAL + 1 && |y| <= MAX_PARTIAL
  }

  /** After the bytes w of the two lines: the one report was made, or all that may be missing is line. */
  ghost predicate OneReport(s: Sink, line: seq<Byte>, y: seq<Byte>, w: seq<Byte>) {
    if s.broken then s.calls == [TrimCR(y)]
    else
      && s.calls == []
      && ((w <= line && (s.pending == w || (w == line && s.pending == [])))
          || (line + [NL] <= w && w[|line| + 1..] <= y && s.pending == w[|line| + 1..]))
  }

  lemma {:induction false} DrainPartial(o: Outside, s: Sink)
    requires NL !in s.pending
    ensures Drain(o, s) == s
  {
    NoNL(s.pending);
  }

  /** What one write makes of pending bytes that are a beginning of what, a line and more. */
  lemma {:induction false} DrainBeginning(o: Outside, s: Sink, part: seq<Byte>, rest: seq<Byte>)
    requires !o.works(0) && s.calls == [] && !s.broken && NL !in part && s.pending <= part + [NL] + rest
    ensures s.pending <= part ==> Drain(o, s) == s
    ensures !(s.pending <= part) && !o.blank(TrimCR(part)) ==> Drain(o, s) == Sink([], true, [TrimCR(part)])
    ensures !(s.pending <= part) && o.blank(TrimCR(part)) ==>
              && |s.pending| > |part| && s.pending[|part| + 1..] <= rest
              && Drain(o, s) == Drain(o, s.(pending := s.pending[|part| + 1..]))
  {
    if s.pending <= part {
      DrainPartial(o, s);
    } else {
      var left := s.pending[|part| + 1..];
      assert s.pending == part + [NL] + left;
      assert left == (part + [NL] + rest)[|part| + 1..][..|left|];
      assert (part + [NL] + rest)[|part| + 1..] == rest;
      DrainLine(o, s, part, left);
    }
  }

  lemma {:induction false} SecondLine(o: Outside, s: Sink, line: seq<Byte>, y: seq<Byte>, w: seq<Byte>)
    requires Alike(o, line, y) && !s.broken && s.calls == []
    requires line + [NL] <= w <= TwoLines(line, y) && s.pending == w[|line| + 1..]
    ensures OneReport(Capped(Drain(o, s)), line, y, w)
  {
    assert w == line + [NL] + s.pending;
    assert TwoLines(line, y)[|line| + 1..] == y + [NL] + [];
    assert s.pending == TwoLines(line, y)[|line| + 1..][..|s.pending|];
    DrainBeginning(o, s, y, []);
  }

  lemma {:induction false} FirstLine(o: Outside, s: Sink, line: seq<Byte>, y: seq<Byte>, w: seq<Byte>)
    requires Alike(o, line, y) && !s.broken && s.calls == [] && w <= TwoLines(line, y) && s.pending == w
    ensures OneReport(Capped(Drain(o, s)), line, y, w)
  {
    DrainBeginning(o, s, line, y + [NL]);
  }

  lemma {:induction false} LostLine(o: Outside, s: Sink, line: seq<Byte>, y: seq<Byte>, w: seq<Byte>)
    requires Alike(o, line, y) && !s.broken && s.calls == []
    requires line <= w <= TwoLines(line, y) && s.pending == w[|line|..]
    ensures OneReport(Capped(Drain(o, s)), line, y, w)
  {
    assert TwoLines(line, y)[|line|..] == [] + [NL] + (y + [NL]);
    assert s.pending == TwoLines(line, y)[|line|..][..|s.pending|];
    DrainBeginning(o, s, [], y + [NL]);
    if s.pending == [] {
      assert w == line;
    } else {
      assert w[..|line| + 1] == line + [NL];
      assert s.pending[1..] == w[|line| + 1..];
      SecondLine(o, s.(pending := s.pending[1..]), line, y, w);
    }
  }

  lemma {:induction false} OneReportStep(o: Outside, s: Sink, line: seq<Byte>, y: seq<Byte>, w: seq<Byte>, p: seq<Byte>)
    requires Alike(o, line, y) && OneReport(s, line, y, w) && w + p <= TwoLines(line, y)
    ensures OneReport(Written(o, s, p), line, y, w + p)
  {
    if !s.broken {
      var t := s.(pending := s.pending + p);
      if line + [NL] <= w {
        assert (w + p)[..|line| + 1] == line + [NL];
        assert (w + p)[|line| + 1..] == t.pending;
        SecondLine(o, t, line, y, w + p);
      } else if s.pending == w {
        FirstLine(o, t, line, y, w + p);
      } else {
        assert (w + p)[|line|..] == t.pending;
        LostLine(o, t, line, y, w + p);
      }
    }
  }

  lemma {:induction false} AfterOneReport(o: Outside, line: seq<Byte>, y: seq<Byte>, chunks: seq<seq<Byte>>)
    requires Alike(o, line, y) && Concat(chunks) <= TwoLines(line, y)
    ensures OneReport(After(o, chunks), line, y, Concat(chunks))
  {
    if chunks != [] {
      AfterOneReport(o, line, y, Front(chunks));
      OneReportStep(o, After(o, Front(chunks)), line, y, Concat(Front(chunks)), Last(chunks));
    }
  }

  /** So here every cutting gives the same single report although the first line may be lost. */
  lemma {:induction false} RepeatHidesLoss(o: Outside, line: seq<Byte>, y: seq<Byte>)
    requires Alike(o, line, y)
    ensures AnyCutReports(o, TwoLines(line, y)) && !Cuttable(o, TwoLines(line, y))
  {
    var stream := TwoLines(line, y);
    forall chunks | Concat(chunks) == stream ensures After(o, chunks).calls == [TrimCR(y)] {
      AfterOneReport(o, line, y, chunks);
      assert |stream| > |line| + 1 + |y|;
    }
    SplitAround(o, [], line, y + [NL]);
    assert [] + Report(o, line) == [TrimCR(line)];
    var more := SplitOf(o, y + [NL]).lines;
    assert SplitOf(o, stream).lines == [TrimCR(line)] + more;
    assert Attempted(o, 0, [TrimCR(line)] + more) == [TrimCR(line)];
    assert stream[0..|line|] == line && stream[..0] == [];
    assert EndedLine(stream, 0, |line|);
    assert !Fails(o, 0, SplitOf(o, stream[..0]).lines);
  }
}
