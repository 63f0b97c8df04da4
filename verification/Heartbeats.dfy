/** The agent's compression of a sample stream into heartbeats (internal/agent/heartbeat.go), and
    what it costs in dwell time. */
module Heartbeats {
  import opened Common
  import opened Protocol
  import opened Counting
  import opened Dwell

  /** Clock readings are in nanoseconds. */
  const SECOND: int := 1_000_000_000

  const DEFAULT_KEEP_ALIVE: int := 15 * SECOND

  /** time.Time.Unix: the second a reading falls in. */
  function Unix(now: int): int { now / SECOND }

  datatype Sample = Sample(now: int, app: string, active: bool)

  /** What a builder remembers: nothing yet, or what it emitted last and when. */
  datatype Memory = Fresh | Emitted(last: Sample)

  predicate Due(m: Memory, s: Sample, keepAlive: int) {
    || m.Fresh?
    || s.app != m.last.app
    || s.active != m.last.active
    || s.now - m.last.now >= keepAlive
  }

  function After(m: Memory, s: Sample, keepAlive: int): Memory {
    if Due(m, s, keepAlive) then Emitted(s) else m
  }

  class HeartbeatBuilder {
    const keepAlive: int
    var started: bool
    var curApp: string
    var curActive: bool
    var lastEmit: int

    ghost function Remembers(): Memory
      reads this
    {
      if started then Emitted(Sample(lastEmit, curApp, curActive)) else Fresh
    }

    constructor (keepAlive: int)
      ensures this.keepAlive == keepAlive && Remembers() == Fresh
    {
      this.keepAlive := keepAlive;
      started, curApp, curActive, lastEmit := false, "", false, 0;
    }

    /** One poll; the agent adds id and category to what comes back. */
    method Observe(now: int, app: string, active: bool) returns (hb: Option<(int, string, bool)>)
      modifies this
      ensures Remembers() == After(old(Remembers()), Sample(now, app, active), keepAlive)
      ensures hb == if Due(old(Remembers()), Sample(now, app, active), keepAlive)
                    then Some((Unix(now), app, active)) else None
    {
      var due := !started || app != curApp || active != curActive || now - lastEmit >= keepAlive;
      if !due {
        return None;
      }
      started, curApp, curActive, lastEmit := true, app, active, now;
      return Some((Unix(now), app, active));
    }
  }

  /** What the agent's builder remembers after some samples. restarts are the indices of the samples
      at which the agent had been restarted: a fresh builder takes over there. */
  function MemoryAfter(samples: seq<Sample>, restarts: set<nat>, keepAlive: int): Memory
    decreases |samples|, 1
  {
    if samples == [] then Fresh else After(MemoryAt(samples, restarts, keepAlive), Last(samples), keepAlive)
  }

  /** What the builder that gets the last sample remembers. */
  function MemoryAt(samples: seq<Sample>, restarts: set<nat>, keepAlive: int): Memory
    requires samples != []
    decreases |samples|, 0
  {
    if |samples| - 1 in restarts then Fresh else MemoryAfter(Front(samples), restarts, keepAlive)
  }

  /** The samples of a stream that are turned into heartbeats. */
  function Kept(samples: seq<Sample>, restarts: set<nat>, keepAlive: int): seq<Sample> {
    if samples == [] then []
    else
      Kept(Front(samples), restarts, keepAlive)
      + if Due(MemoryAt(samples, restarts, keepAlive), Last(samples), keepAlive) then [Last(samples)] else []
  }

  /** The heartbeats of one stream with a restart are those of two runs, each with its own builder. */
  lemma {:induction false} KeptOfRuns(a: seq<Sample>, b: seq<Sample>, restarts: set<nat>, keepAlive: int)
    requires |a| in restarts && forall i :: i in restarts ==> i <= |a|
    ensures Kept(a + b, restarts, keepAlive) == Kept(a, restarts, keepAlive) + Kept(b, {}, keepAlive)
    ensures b != [] ==> MemoryAfter(a + b, restarts, keepAlive) == MemoryAfter(b, {}, keepAlive)
    decreases |b|
  {
    if b == [] {
      assert a + b == a;
    } else {
      KeptOfRuns(a, Front(b), restarts, keepAlive);
      assert Front(a + b) == a + Front(b) && Last(a + b) == Last(b);
      if Front(b) != [] {
        assert |a + b| - 1 !in restarts;
      }
      assert MemoryAt(a + b, restarts, keepAlive) == MemoryAt(b, {}, keepAlive);
    }
  }

  /** What the agent adds to a kept sample, and the device the server files it under. */
  datatype Origin = Origin(device: string, idOf: Sample -> string, categorize: string -> string)

  function RowOf(o: Origin, s: Sample): Row {
    Row(o.device, Heartbeat(o.idOf(s), Unix(s.now), Label(s.app, o.categorize(s.app), s.active)))
  }

  function RowsOf(o: Origin, samples: seq<Sample>): seq<Row> {
    if samples == [] then [] else RowsOf(o, Front(samples)) + [RowOf(o, Last(samples))]
  }

  /** The agent's loop over a stream of samples (RunSamples, or Run with pollOnce). */
  method RunSamples(o: Origin, samples: seq<Sample>) returns (out: seq<Row>)
    ensures out == RowsOf(o, Kept(samples, {}, DEFAULT_KEEP_ALIVE))
  {
    var builder := new HeartbeatBuilder(DEFAULT_KEEP_ALIVE);
    out := [];
    for i := 0 to |samples|
      invariant builder.keepAlive == DEFAULT_KEEP_ALIVE
      invariant builder.Remembers() == MemoryAfter(samples[..i], {}, DEFAULT_KEEP_ALIVE)
      invariant out == RowsOf(o, Kept(samples[..i], {}, DEFAULT_KEEP_ALIVE))
    {
      var s := samples[i];
      assert Front(samples[..i + 1]) == samples[..i] && Last(samples[..i + 1]) == s;
      ghost var kept := Kept(samples[..i], {}, DEFAULT_KEEP_ALIVE);
      assert Front(kept + [s]) == kept && kept + [] == kept;
      var hb := builder.Observe(s.now, s.app, s.active);
      match hb
      case None =>
      case Some((ts, app, active)) =>
        out := out + [Row(o.device, Heartbeat(o.idOf(s), ts, Label(app, o.categorize(app), active)))];
    }
    assert samples[..|samples|] == samples;
  }

  // ---------------------------------------------------------------------------------------
  // What the kept samples remember.
  // ---------------------------------------------------------------------------------------

  /** The clock never goes back; several samples may share a second. */
  ghost predicate ClockRuns(samples: seq<Sample>) {
    forall i, j :: 0 <= i < j < |samples| ==> Unix(samples[i].now) <= Unix(samples[j].now)
  }

  lemma {:induction false} KeptFromSamples(samples: seq<Sample>, restarts: set<nat>, k: int)
    ensures forall s :: s in Kept(samples, restarts, k) ==> s in samples
    ensures MemoryAfter(samples, restarts, k)
            == if Kept(samples, restarts, k) == [] then Fresh else Emitted(Last(Kept(samples, restarts, k)))
    ensures samples != [] ==> Kept(samples, restarts, k) != [] && Kept(samples, restarts, k)[0] == samples[0]
  {
    if samples != [] {
      KeptFromSamples(Front(samples), restarts, k);
    }
  }

  /** The last heartbeat shows what the last sample saw and is less than a keep-alive older. */
  lemma {:induction false} LastKept(samples: seq<Sample>, restarts: set<nat>)
    requires samples != [] && ClockRuns(samples)
    ensures var kept := Kept(samples, restarts, DEFAULT_KEEP_ALIVE);
            && kept != []
            && Last(kept).app == Last(samples).app
            && Last(kept).active == Last(samples).active
            && Unix(samples[0].now) <= Unix(Last(kept).now) <= Unix(Last(samples).now)
            && Unix(Last(samples).now) - Unix(Last(kept).now) <= 15
  {
    KeptFromSamples(samples, restarts, DEFAULT_KEEP_ALIVE);
    KeptFromSamples(Front(samples), restarts, DEFAULT_KEEP_ALIVE);
    var e := Last(Kept(samples, restarts, DEFAULT_KEEP_ALIVE));
    assert e in samples;
    var i :| 0 <= i < |samples| && samples[i] == e;
  }

  /** Who owns t once one newer row is added at the end. */
  lemma CountedSnoc(rows: seq<Row>, row: Row, from: int, t: int, key: Key)
    ensures Counted(rows + [row], from, t, key) <==>
            if row.hb.ts <= t then Covers(row, from, t, key) else Counted(rows, from, t, key)
  {
    var all := rows + [row];
    assert all[|rows|] == row;
    if row.hb.ts <= t {
      forall i | Owns(all, from, t, i) ensures i == |rows| { }
      assert from <= row.hb.ts ==> Owns(all, from, t, |rows|);
    } else {
      forall i | Owns(rows, from, t, i) ensures Owns(all, from, t, i) && all[i] == rows[i] { }
      forall i | Owns(all, from, t, i) ensures Owns(rows, from, t, i) && all[i] == rows[i] {
        forall j | i < j < |rows| ensures t < rows[j].hb.ts { assert all[j] == rows[j]; }
      }
    }
  }

  /** A second that only the uncompressed stream can count: 15 to 30 s after a sample, none newer. */
  ghost predicate InTail(samples: seq<Sample>, t: int) {
    samples != [] &&
    if Unix(Last(samples).now) <= t then 15 <= t - Unix(Last(samples).now) < 30 else InTail(Front(samples), t)
  }

  /** A second that only the uncompressed stream can count because the window opened between a
      heartbeat and samples that it stands for. */
  ghost predicate AtHead(samples: seq<Sample>, from: int, t: int) {
    samples != [] && Unix(samples[0].now) < from <= t < from + 29
  }

  /** Second by second: compression never invents time, and loses only tails and the window's head. */
  lemma {:induction false} CompressionPerSecond(o: Origin, samples: seq<Sample>, restarts: set<nat>,
                                                from: int, t: int, key: Key)
    requires ClockRuns(samples)
    ensures var all, kept := RowsOf(o, samples), RowsOf(o, Kept(samples, restarts, DEFAULT_KEEP_ALIVE));
            && (Counted(kept, from, t, key) ==> Counted(all, from, t, key))
            && (Counted(all, from, t, key) && !Counted(kept, from, t, key)
                ==> InTail(samples, t) || AtHead(samples, from, t))
    decreases |samples|
  {
    if samples != [] {
      var front, x := Front(samples), Last(samples);
      var kept := Kept(samples, restarts, DEFAULT_KEEP_ALIVE);
      LastKept(samples, restarts);
      CompressionPerSecond(o, front, restarts, from, t, key);
      CountedSnoc(RowsOf(o, front), RowOf(o, x), from, t, key);
      CountedSnoc(RowsOf(o, Front(kept)), RowOf(o, Last(kept)), from, t, key);
      if t < Unix(x.now) {
        var before := Kept(front, restarts, DEFAULT_KEEP_ALIVE);
        assert kept == before || (kept == before + [x] && Front(before + [x]) == before);
      }
    }
  }

  // ---------------------------------------------------------------------------------------
  // Adding the seconds up.
  // ---------------------------------------------------------------------------------------

  /** Some of the tail of a sample at x, 15 to 30 s after it and before until, is in the window. */
  predicate LosesTail(x: int, until: int, from: int, to: int) {
    x + 15 < until && x + 15 < to && from < until && from < x + 30
  }

  /** The number of gaps longer than the keep-alive whose tail is in the window. */
  function LongGaps(samples: seq<Sample>, from: int, to: int): nat {
    if |samples| < 2 then 0
    else
      LongGaps(Front(samples), from, to)
      + if LosesTail(Unix(Last(Front(samples)).now), Unix(Last(samples).now), from, to) then 1 else 0
  }

  /** The window is open past the last sample's keep-alive. */
  function OpenEnd(samples: seq<Sample>, from: int, to: int): nat {
    if samples != [] && LosesTail(Unix(Last(samples).now), to, from, to) then 1 else 0
  }

  /** What a window that starts after the first sample can lose at its head. */
  function HeadLoss(samples: seq<Sample>, from: int): nat {
    if samples != [] && Unix(samples[0].now) < from then 29 else 0
  }

  ghost function TailAt(samples: seq<Sample>): int -> bool {
    t => InTail(samples, t)
  }

  ghost function HeadAt(samples: seq<Sample>, from: int): int -> bool {
    t => AtHead(samples, from, t)
  }

  ghost function Within(a: int, b: int): int -> bool {
    t => a <= t < b
  }

  lemma {:induction false} LongGapsGrow(samples: seq<Sample>, from: int, early: int, late: int)
    requires early <= late
    ensures LongGaps(samples, from, early) <= LongGaps(samples, from, late)
  {
    if |samples| >= 2 {
      LongGapsGrow(Front(samples), from, early, late);
    }
  }

  lemma {:induction false} TailSeconds(samples: seq<Sample>, from: int, to: int)
    requires ClockRuns(samples)
    ensures Count(from, to, TailAt(samples)) <= 15 * (LongGaps(samples, from, to) + OpenEnd(samples, from, to))
    decreases |samples|
  {
    if samples == [] {
      CountZero(from, to, TailAt(samples));
    } else {
      var front, x := Front(samples), Unix(Last(samples).now);
      var before := if to < x then to else x;
      TailSeconds(front, from, before);
      LongGapsGrow(front, from, before, to);
      var inFront := (t: int) => t < x && InTail(front, t);
      CountCut(from, to, x, TailAt(front), inFront);
      CountWithin(from, to, x + 15, x + 30);
      CountUnion(from, to, inFront, Within(x + 15, x + 30), TailAt(samples));
    }
  }

  lemma CountWithin(lo: int, hi: int, a: int, b: int)
    requires a < b
    ensures Count(lo, hi, Within(a, b)) <= if a < hi && lo < b && lo < hi then b - a else 0
  {
    if a < hi && lo < b {
      CountZero(lo, hi, Within(a, a));
      CountGrows(lo, hi, Within(a, a), Within(a, b), a, b);
    } else {
      CountZero(lo, hi, Within(a, b));
    }
  }

  lemma RowsOrdered(o: Origin, samples: seq<Sample>)
    requires ClockRuns(samples)
    ensures OrderedPerDevice(RowsOf(o, samples))
    ensures OfDevice(RowsOf(o, samples), o.device) == RowsOf(o, samples)
  {
    RowsAt(o, samples);
    OwnRows(RowsOf(o, samples), o.device);
  }

  lemma {:induction false} RowsAt(o: Origin, samples: seq<Sample>)
    ensures |RowsOf(o, samples)| == |samples|
    ensures forall i :: 0 <= i < |samples| ==> RowsOf(o, samples)[i] == RowOf(o, samples[i])
  {
    if samples != [] {
      RowsAt(o, Front(samples));
    }
  }

  lemma {:induction false} KeptInOrder(samples: seq<Sample>, restarts: set<nat>)
    requires ClockRuns(samples)
    ensures ClockRuns(Kept(samples, restarts, DEFAULT_KEEP_ALIVE))
  {
    if samples != [] {
      var kept := Kept(Front(samples), restarts, DEFAULT_KEEP_ALIVE);
      KeptInOrder(Front(samples), restarts);
      KeptFromSamples(Front(samples), restarts, DEFAULT_KEEP_ALIVE);
      forall s | s in kept ensures Unix(s.now) <= Unix(Last(samples).now) {
        var i :| 0 <= i < |Front(samples)| && samples[i] == s;
      }
    }
  }

  ghost function DwellOfAll(o: Origin, samples: seq<Sample>, from: int, to: int, key: Key): int {
    DwellSeconds(RowsOf(o, samples), o.device, from, to, key)
  }

  ghost function DwellOfKept(o: Origin, samples: seq<Sample>, restarts: set<nat>, from: int, to: int, key: Key): int {
    DwellSeconds(RowsOf(o, Kept(samples, restarts, DEFAULT_KEEP_ALIVE)), o.device, from, to, key)
  }

  lemma BothPerSecond(o: Origin, samples: seq<Sample>, restarts: set<nat>, from: int, to: int, key: Key)
    requires ClockRuns(samples) && o.device != ""
    ensures DwellOfAll(o, samples, from, to, key) == PerSecond(RowsOf(o, samples), from, to, key)
    ensures DwellOfKept(o, samples, restarts, from, to, key)
            == PerSecond(RowsOf(o, Kept(samples, restarts, DEFAULT_KEEP_ALIVE)), from, to, key)
  {
    KeptInOrder(samples, restarts);
    RowsOrdered(o, samples);
    RowsOrdered(o, Kept(samples, restarts, DEFAULT_KEEP_ALIVE));
    DwellIsPerSecond(RowsOf(o, samples), o.device, from, to, key);
    DwellIsPerSecond(RowsOf(o, Kept(samples, restarts, DEFAULT_KEEP_ALIVE)), o.device, from, to, key);
  }

  /** In any window and for any group, heartbeats never show more time than all samples would. */
  lemma {:induction false} CompressionNeverGains(o: Origin, samples: seq<Sample>, restarts: set<nat>, from: int,
                                                 to: int, key: Key)
    requires ClockRuns(samples) && o.device != ""
    ensures DwellOfKept(o, samples, restarts, from, to, key) <= DwellOfAll(o, samples, from, to, key)
  {
    BothPerSecond(o, samples, restarts, from, to, key);
    var f := CountedAt(RowsOf(o, Kept(samples, restarts, DEFAULT_KEEP_ALIVE)), from, key);
    var g := CountedAt(RowsOf(o, samples), from, key);
    forall t ensures f(t) ==> g(t) {
      CompressionPerSecond(o, samples, restarts, from, t, key);
    }
    CountGrows(from, to, f, g, from, to);
  }

  /** MAIN: in any window the loss is at most 15 s for every gap longer than 15 s that reaches into it,
      15 s at an open end, and 29 s at its head when it starts after the first sample. */
  lemma {:induction false} CompressionLosesOnlyTails(o: Origin, samples: seq<Sample>, restarts: set<nat>,
                                                     from: int, to: int, key: Key)
    requires ClockRuns(samples) && o.device != ""
    ensures DwellOfAll(o, samples, from, to, key) - DwellOfKept(o, samples, restarts, from, to, key)
            <= 15 * (LongGaps(samples, from, to) + OpenEnd(samples, from, to)) + HeadLoss(samples, from)
  {
    BothPerSecond(o, samples, restarts, from, to, key);
    var f := CountedAt(RowsOf(o, Kept(samples, restarts, DEFAULT_KEEP_ALIVE)), from, key);
    var g := CountedAt(RowsOf(o, samples), from, key);
    var lost := (t: int) => InTail(samples, t) || AtHead(samples, from, t);
    forall t ensures g(t) ==> f(t) || lost(t) {
      CompressionPerSecond(o, samples, restarts, from, t, key);
    }
    CountUnion(from, to, f, lost, g);
    CountUnion(from, to, TailAt(samples), HeadAt(samples, from), lost);
    TailSeconds(samples, from, to);
    HeadSeconds(samples, from, to);
  }

  lemma HeadSeconds(samples: seq<Sample>, from: int, to: int)
    ensures Count(from, to, HeadAt(samples, from)) <= HeadLoss(samples, from)
  {
    if HeadLoss(samples, from) == 0 {
      CountZero(from, to, HeadAt(samples, from));
    } else {
      CountWithin(from, to, from, from + 29);
      CountSame(from, to, HeadAt(samples, from), Within(from, from + 29));
    }
  }

  lemma {:induction false} RowsOfThree(o: Origin, x: Sample, y: Sample, z: Sample)
    ensures RowsOf(o, [x]) == [RowOf(o, x)] && RowsOf(o, [x, y, z]) == [RowOf(o, x), RowOf(o, y), RowOf(o, z)]
  {
    assert Front([x]) == [] && Front([x, y]) == [x] && Front([x, y, z]) == [x, y];
    assert RowsOf(o, [x]) == [RowOf(o, x)];
    assert RowsOf(o, [x, y]) == [RowOf(o, x), RowOf(o, y)];
  }

  lemma {:induction false} FirstOfThreeKept(x: Sample, y: Sample, z: Sample)
    requires !Due(Emitted(x), y, DEFAULT_KEEP_ALIVE) && !Due(Emitted(x), z, DEFAULT_KEEP_ALIVE)
    ensures Kept([x, y, z], {}, DEFAULT_KEEP_ALIVE) == [x]
  {
    assert Front([x]) == [] && Front([x, y]) == [x] && Front([x, y, z]) == [x, y];
    assert MemoryAt([x], {}, DEFAULT_KEEP_ALIVE) == MemoryAfter([], {}, DEFAULT_KEEP_ALIVE) == Fresh;
    assert Kept([x], {}, DEFAULT_KEEP_ALIVE) == [] + [x] == [x];
    assert MemoryAfter([x], {}, DEFAULT_KEEP_ALIVE) == Emitted(x);
    assert MemoryAt([x, y], {}, DEFAULT_KEEP_ALIVE) == Emitted(x);
    assert Kept([x, y], {}, DEFAULT_KEEP_ALIVE) == [x] && MemoryAfter([x, y], {}, DEFAULT_KEEP_ALIVE) == Emitted(x);
  }

  lemma {:induction false} LastTwoOfThree(a: Row, b: Row, c: Row, device: string)
    requires a.device == b.device == c.device == device && a.hb.ts == 0 && b.hb.ts == 1 && c.hb.ts == 15
    ensures DwellSeconds([a, b, c], device, 1, 30, Anything()) == 29
    ensures DwellSeconds([a], device, 1, 30, Anything()) == 0
  {
    assert [a, b, c][1..] == [b, c] && [b, c][1..] == [c] && [c][1..] == [] && [a][1..] == [];
    assert Rng([c], device, 1, 30) == [c];
    assert Rng([b, c], device, 1, 30) == [b] + [c] == [b, c];
    assert Rng([a, b, c], device, 1, 30) == [b, c];
    assert SumSecs([c], 30, Anything()) == 15;
  }

  /** The 29 s are reached: the sample at 15.8 s goes with the heartbeat of 0.9 s, before the window. */
  lemma {:induction false} HeadLossIsReached(o: Origin, app: string)
    requires o.device != ""
    ensures var samples := [Sample(900_000_000, app, true), Sample(1_000_000_000, app, true),
                            Sample(15_800_000_000, app, true)];
            && ClockRuns(samples)
            && LongGaps(samples, 1, 30) == OpenEnd(samples, 1, 30) == 0
            && DwellOfAll(o, samples, 1, 30, Anything()) == 29
            && DwellOfKept(o, samples, {}, 1, 30, Anything()) == 0
  {
    var x, y, z := Sample(900_000_000, app, true), Sample(1_000_000_000, app, true), Sample(15_800_000_000, app, true);
    RowsOfThree(o, x, y, z);
    FirstOfThreeKept(x, y, z);
    LastTwoOfThree(RowOf(o, x), RowOf(o, y), RowOf(o, z), o.device);
    NoLongGaps([x, y, z], 1, 30);
  }

  lemma {:induction false} NoLongGaps(samples: seq<Sample>, from: int, to: int)
    requires forall i :: 0 <= i < |samples| - 1 ==> Unix(samples[i + 1].now) - Unix(samples[i].now) <= 15
    ensures LongGaps(samples, from, to) == 0
  {
    if |samples| >= 2 {
      NoLongGaps(Front(samples), from, to);
      assert Unix(samples[|samples| - 2 + 1].now) - Unix(samples[|samples| - 2].now) <= 15;
    }
  }

  /** MAIN: on a stream without gaps over 15 s the server sees exactly the time all samples would
      show, for every app, category and active flag. */
  lemma {:induction false} CompressionIsLossless(o: Origin, samples: seq<Sample>, restarts: set<nat>, from: int,
                                                 to: int, key: Key)
    requires ClockRuns(samples) && o.device != "" && samples != []
    requires forall i :: 0 <= i < |samples| - 1 ==> Unix(samples[i + 1].now) - Unix(samples[i].now) <= 15
    requires from <= Unix(samples[0].now) && to <= Unix(Last(samples).now) + 15
    ensures DwellOfKept(o, samples, restarts, from, to, key) == DwellOfAll(o, samples, from, to, key)
  {
    NoLongGaps(samples, from, to);
    CompressionNeverGains(o, samples, restarts, from, to, key);
    CompressionLosesOnlyTails(o, samples, restarts, from, to, key);
  }

  // ---------------------------------------------------------------------------------------
  // That there is compression at all.
  // ---------------------------------------------------------------------------------------

  /** MAIN: of two heartbeats in a row from one builder that show the same, the second is at least a
      keep-alive later. */
  lemma {:induction false} KeptSpaced(samples: seq<Sample>, keepAlive: int, i: nat)
    requires i + 1 < |Kept(samples, {}, keepAlive)|
    ensures var a, b := Kept(samples, {}, keepAlive)[i], Kept(samples, {}, keepAlive)[i + 1];
            a.app == b.app && a.active == b.active ==> b.now - a.now >= keepAlive
    decreases |samples|
  {
    var front := Front(samples);
    var before := Kept(front, {}, keepAlive);
    KeptFromSamples(front, {}, keepAlive);
    if i + 1 < |before| {
      KeptSpaced(front, keepAlive, i);
    }
  }

  ghost predicate Unchanged(samples: seq<Sample>) {
    forall i, j :: 0 <= i < j < |samples| ==> samples[i].app == samples[j].app && samples[i].active == samples[j].active
  }

  ghost predicate InOrder(samples: seq<Sample>) {
    forall i, j :: 0 <= i < j < |samples| ==> samples[i].now <= samples[j].now
  }

  lemma {:induction false} KeptAreSpread(samples: seq<Sample>, keepAlive: int)
    requires Unchanged(samples) && InOrder(samples) && samples != [] && keepAlive > 0
    ensures var kept := Kept(samples, {}, keepAlive);
            && kept != [] && Last(kept).now <= Last(samples).now
            && (|kept| - 1) * keepAlive <= Last(kept).now - samples[0].now
    decreases |samples|
  {
    var front, kept := Front(samples), Kept(samples, {}, keepAlive);
    var before := Kept(front, {}, keepAlive);
    KeptFromSamples(samples, {}, keepAlive);
    if |samples| > 1 {
      KeptAreSpread(front, keepAlive);
      KeptFromSamples(front, {}, keepAlive);
      if kept == before + [Last(samples)] {
        KeptSpaced(samples, keepAlive, |before| - 1);
        assert Last(before) in before;
        Times(|before| - 1, keepAlive);
      }
    } else {
      assert before == [];
    }
  }

  lemma Times(n: int, k: int)
    ensures (n + 1) * k == n * k + k
  {
  }

  /** An unchanged stretch of d ns makes at most 1 + d / keepAlive heartbeats, however often it is polled. */
  lemma {:induction false} UnchangedStretchIsSparse(samples: seq<Sample>, keepAlive: int)
    requires Unchanged(samples) && InOrder(samples) && samples != [] && keepAlive > 0
    ensures |Kept(samples, {}, keepAlive)| <= 1 + (Last(samples).now - samples[0].now) / keepAlive
  {
    var n, d := |Kept(samples, {}, keepAlive)| - 1, Last(samples).now - samples[0].now;
    KeptAreSpread(samples, keepAlive);
    Quotient(n, d, keepAlive);
  }

  lemma Quotient(n: int, d: int, k: int)
    requires k > 0 && n * k <= d
    ensures n <= d / k
  {
    if n > d / k {
      Multiple(d / k + 1, n, k);
    }
  }

  lemma Multiple(a: int, b: int, k: int)
    requires a <= b && k > 0
    ensures a * k <= b * k
  {
  }

  /** A heartbeat shows what was sampled, and the second it was sampled in. */
  lemma {:induction false} RowShowsSample(o: Origin, s: Sample)
    ensures var r := RowOf(o, s);
            && r.device == o.device && r.hb.seen.app == s.app && r.hb.seen.active == s.active
            && r.hb.seen.category == o.categorize(s.app) && r.hb.id == o.idOf(s)
            && r.hb.ts * 1_000_000_000 <= s.now < (r.hb.ts + 1) * 1_000_000_000
  {
  }
}
