/** The whole pipeline: from the samples an agent saw to the seconds a query reports. */
module EndToEnd {
  import opened Common
  import opened Protocol
  import opened JsonLines
  import opened BufferFile
  import opened Dwell
  import opened DwellLaws
  import opened Heartbeats
  import Delivery

  /** The rows the agent's builders made of the samples: the first one's, and a fresh one's after each
      restart. */
  function Made(o: Origin, samples: seq<Sample>, restarts: set<nat>): seq<Row> {
    RowsOf(o, Kept(samples, restarts, DEFAULT_KEEP_ALIVE))
  }

  /** The agent handed nothing else to its buffer. */
  ghost predicate Appends(s: Delivery.System, o: Origin, samples: seq<Sample>, restarts: set<nat>) {
    forall h :: h in s.appended ==> Row(o.device, h) in Made(o, samples, restarts)
  }

  /** And no crash cut a heartbeat off before it was written. */
  ghost predicate AppendsAll(s: Delivery.System, o: Origin, samples: seq<Sample>, restarts: set<nat>) {
    Appends(s, o, samples, restarts) && forall r :: r in Made(o, samples, restarts) ==> r.hb in s.appended
  }

  /** rows lists the device's part of the table, in some order of ts. */
  ghost predicate Lists(rows: seq<Row>, s: Delivery.System, device: string) {
    && OrderedPerDevice(rows)
    && forall r: Row :: r.device == device ==> (r in rows <==> r.hb in s.stored.Values)
  }

  /** xs holds the seconds of every heartbeat that is not in the table (still buffered, dropped by
      overflow, or cut off by a crash) and of every tie that disagrees. */
  ghost predicate Disturbed(xs: seq<int>, s: Delivery.System, o: Origin, samples: seq<Sample>, restarts: set<nat>,
                            from: int, to: int, key: Key)
  {
    && (forall r :: r in Made(o, samples, restarts) && r.hb !in s.stored.Values ==> r.hb.ts in xs)
    && (forall r, q ::
          (r in Made(o, samples, restarts) && q in Made(o, samples, restarts)
           && Tie(r, q, o.device, from, to) && key(r.hb.seen) != key(q.hb.seen)) ==> r.hb.ts in xs)
  }

  function Missing(o: Origin, samples: seq<Sample>, rows: seq<Row>, from: int, to: int, key: Key): int {
    DwellSeconds(RowsOf(o, samples), o.device, from, to, key) - DwellSeconds(rows, o.device, from, to, key)
  }

  function Tolerance(samples: seq<Sample>, from: int, to: int): nat {
    15 * (LongGaps(samples, from, to) + OpenEnd(samples, from, to)) + HeadLoss(samples, from)
  }

  lemma {:induction false} MadeOrdered(o: Origin, samples: seq<Sample>, restarts: set<nat>)
    requires ClockRuns(samples)
    ensures OrderedPerDevice(Made(o, samples, restarts)) && OneDevice(Made(o, samples, restarts), o.device)
  {
    var kept := Kept(samples, restarts, DEFAULT_KEEP_ALIVE);
    KeptInOrder(samples, restarts);
    RowsAt(o, kept);
    RowsOrdered(o, kept);
  }

  /** Whatever is stored was made. */
  lemma {:induction false} StoredWasMade(c: Codec, maxBytes: int, steps: seq<Delivery.Step>, o: Origin,
                                         samples: seq<Sample>, restarts: set<nat>, rows: seq<Row>)
    requires Delivery.Fits(c, maxBytes, steps)
    requires var s := Delivery.After(c, maxBytes, steps); Appends(s, o, samples, restarts) && Lists(rows, s, o.device)
    ensures forall r: Row :: r.device == o.device && r in rows ==> r in Made(o, samples, restarts)
  {
    var s := Delivery.After(c, maxBytes, steps);
    Delivery.StoredOnceAndAsAppended(c, maxBytes, steps);
    forall r: Row | r.device == o.device && r in rows ensures r in Made(o, samples, restarts) {
      assert r.hb in s.appended && r == Row(o.device, r.hb);
    }
  }

  /** MAIN: in every reachable state, whatever was lost, repeated or late on the way and however often
      the agent restarted, a query shows for every window and every app, category and active flag the
      seconds all samples would show, up to 15 s for every gap longer than 15 s that reaches into the
      window, 15 s at an open end and 29 s at a late start; and 30 s either way for each second with a
      heartbeat that is not in the table or a tie that disagrees. */
  lemma {:induction false} QueriesAreNearSamples(c: Codec, maxBytes: int, steps: seq<Delivery.Step>, o: Origin,
                                                 samples: seq<Sample>, restarts: set<nat>, rows: seq<Row>,
                                                 from: int, to: int, key: Key, xs: seq<int>)
    requires Delivery.Fits(c, maxBytes, steps) && ClockRuns(samples) && o.device != ""
    requires var s := Delivery.After(c, maxBytes, steps);
             && Appends(s, o, samples, restarts) && Lists(rows, s, o.device)
             && Disturbed(xs, s, o, samples, restarts, from, to, key)
    ensures -MAX_HEARTBEAT_GAP * |xs|
            <= Missing(o, samples, rows, from, to, key)
            <= Tolerance(samples, from, to) + MAX_HEARTBEAT_GAP * |xs|
  {
    var s := Delivery.After(c, maxBytes, steps);
    MadeOrdered(o, samples, restarts);
    StoredWasMade(c, maxBytes, steps, o, samples, restarts, rows);
    DwellDiffersNearMarks(xs, Made(o, samples, restarts), rows, o.device, from, to, key);
    CompressionNeverGains(o, samples, restarts, from, to, key);
    CompressionLosesOnlyTails(o, samples, restarts, from, to, key);
  }

  /** Totals do not mind ties, and are never more than what was sampled. */
  lemma {:induction false} TotalsAreNearSamples(c: Codec, maxBytes: int, steps: seq<Delivery.Step>, o: Origin,
                                                samples: seq<Sample>, restarts: set<nat>, rows: seq<Row>,
                                                from: int, to: int, xs: seq<int>)
    requires Delivery.Fits(c, maxBytes, steps) && ClockRuns(samples) && o.device != ""
    requires var s := Delivery.After(c, maxBytes, steps);
             && Appends(s, o, samples, restarts) && Lists(rows, s, o.device)
             && forall r :: r in Made(o, samples, restarts) && r.hb !in s.stored.Values ==> r.hb.ts in xs
    ensures 0 <= Missing(o, samples, rows, from, to, Anything())
              <= Tolerance(samples, from, to) + MAX_HEARTBEAT_GAP * |xs|
  {
    var made := Made(o, samples, restarts);
    QueriesAreNearSamples(c, maxBytes, steps, o, samples, restarts, rows, from, to, Anything(), xs);
    MadeOrdered(o, samples, restarts);
    StoredWasMade(c, maxBytes, steps, o, samples, restarts, rows);
    FewerRowsTotalLess(rows, made, o.device, from, to);
    CompressionNeverGains(o, samples, restarts, from, to, Anything());
  }

  /** An empty buffer that never overflowed has delivered everything, and nothing else is stored. */
  lemma {:induction false} EmptyBufferMeansStored(c: Codec, maxBytes: int, steps: seq<Delivery.Step>)
    requires Delivery.Fits(c, maxBytes, steps)
    requires var s := Delivery.After(c, maxBytes, steps); s.dropped == {} && UnackedOf(c, s.f, SCAN_ALL) == Ok([])
    ensures var s := Delivery.After(c, maxBytes, steps); s.stored.Values == s.appended
  {
    var s := Delivery.After(c, maxBytes, steps);
    Delivery.StoredOnceAndAsAppended(c, maxBytes, steps);
    forall h | h in s.appended ensures h in s.stored.Values {
      Delivery.NothingIsLost(c, maxBytes, steps, h);
    }
  }

  /** MAIN: once the buffer is empty, with no overflow and no heartbeat cut off by a crash, totals are
      exact up to the tolerance, and so is every group whose ties agree. */
  lemma {:induction false} QueriesShowWhatWasSampled(c: Codec, maxBytes: int, steps: seq<Delivery.Step>, o: Origin,
                                                     samples: seq<Sample>, restarts: set<nat>, rows: seq<Row>,
                                                     from: int, to: int, key: Key)
    requires Delivery.Fits(c, maxBytes, steps) && ClockRuns(samples) && o.device != ""
    requires var s := Delivery.After(c, maxBytes, steps);
             && s.dropped == {} && UnackedOf(c, s.f, SCAN_ALL) == Ok([])
             && AppendsAll(s, o, samples, restarts) && Lists(rows, s, o.device)
    ensures 0 <= Missing(o, samples, rows, from, to, Anything()) <= Tolerance(samples, from, to)
    ensures TiesAgree(Made(o, samples, restarts), o.device, from, to, key) ==>
              0 <= Missing(o, samples, rows, from, to, key) <= Tolerance(samples, from, to)
  {
    EmptyBufferMeansStored(c, maxBytes, steps);
    TotalsAreNearSamples(c, maxBytes, steps, o, samples, restarts, rows, from, to, []);
    if TiesAgree(Made(o, samples, restarts), o.device, from, to, key) {
      QueriesAreNearSamples(c, maxBytes, steps, o, samples, restarts, rows, from, to, key, []);
    }
  }

  /** That proviso is exact for the answer to be settled: every listing of the table gives a group the
      seconds its heartbeats have in the order they were made if and only if their ties agree. */
  lemma {:induction false} ListingsAgreeIff(s: Delivery.System, o: Origin, samples: seq<Sample>, restarts: set<nat>,
                                            from: int, to: int, key: Key)
    requires ClockRuns(samples) && o.device != "" && AppendsAll(s, o, samples, restarts)
    requires s.stored.Values == s.appended
    ensures TiesAgree(Made(o, samples, restarts), o.device, from, to, key) <==>
            forall rows :: Lists(rows, s, o.device) ==>
              DwellSeconds(rows, o.device, from, to, key)
              == DwellSeconds(Made(o, samples, restarts), o.device, from, to, key)
  {
    var made := Made(o, samples, restarts);
    MadeOrdered(o, samples, restarts);
    SettledIffTiesAgree(made, o.device, from, to, key);
    forall r: Row | r.device == o.device ensures r in made <==> r.hb in s.stored.Values {
      assert r == Row(o.device, r.hb);
    }
    forall rows ensures Lists(rows, s, o.device) <==> OrderedPerDevice(rows) && SameRows(made, rows, o.device) { }
  }

  /** Ties do happen: two samples taken a nanosecond apart, of different apps, are both kept; read back
      in the other order the first app has 30 s where all samples show none. */
  lemma {:induction false} BurstTies(o: Origin, a: string, b: string)
    requires o.device != "" && a != b
    ensures var samples := [Sample(0, a, true), Sample(1, b, true)];
            var rows := [RowOf(o, samples[1]), RowOf(o, samples[0])];
            var inA := (seen: Label) => seen.app == a;
            && ClockRuns(samples) && Made(o, samples, {}) == RowsOf(o, samples)
            && OrderedPerDevice(rows) && SameRows(Made(o, samples, {}), rows, o.device)
            && DwellSeconds(RowsOf(o, samples), o.device, 0, 30, inA) == 0
            && DwellSeconds(rows, o.device, 0, 30, inA) == 30
  {
    var x, y := Sample(0, a, true), Sample(1, b, true);
    var p, q := RowOf(o, x), RowOf(o, y);
    var inA := (seen: Label) => seen.app == a;
    RowsAt(o, [x, y]);
    assert RowsOf(o, [x, y]) == [p, q];
    BothKept(x, y);
    TwoInOneSecond(p, q, o.device, inA);
    TwoInOneSecond(q, p, o.device, inA);
  }

  lemma {:induction false} BothKept(x: Sample, y: Sample)
    requires x.app != y.app
    ensures Kept([x, y], {}, DEFAULT_KEEP_ALIVE) == [x, y]
  {
    assert Front([x]) == [] && Front([x, y]) == [x];
    assert MemoryAt([x], {}, DEFAULT_KEEP_ALIVE) == MemoryAfter([], {}, DEFAULT_KEEP_ALIVE) == Fresh;
    assert Kept([x], {}, DEFAULT_KEEP_ALIVE) == [] + [x] == [x];
    assert MemoryAfter([x], {}, DEFAULT_KEEP_ALIVE) == Emitted(x);
    assert MemoryAt([x, y], {}, DEFAULT_KEEP_ALIVE) == Emitted(x);
    assert Kept([x, y], {}, DEFAULT_KEEP_ALIVE) == [x] + [y] == [x, y];
  }

  lemma {:induction false} TwoInOneSecond(p: Row, q: Row, device: string, key: Key)
    requires p.device == q.device == device && p.hb.ts == q.hb.ts == 0
    ensures DwellSeconds([p, q], device, 0, 30, key) == if key(q.hb.seen) then 30 else 0
  {
    assert [p, q][1..] == [q] && [q][1..] == [];
    assert Rng([q], device, 0, 30) == [q];
    assert Rng([p, q], device, 0, 30) == [p] + [q] == [p, q];
    assert SumSecs([q], 30, key) == if key(q.hb.seen) then 30 else 0;
  }
}
