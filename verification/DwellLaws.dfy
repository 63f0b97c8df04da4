/** Laws of the dwell queries: what a total depends on, how it splits over groups, devices and
    windows (internal/server/query.go). */
module DwellLaws {
  import opened Common
  import opened Protocol
  import opened Counting
  import opened Dwell

  // ---------------------------------------------------------------------------------------
  // Totals: the union of the intervals [ts, ts + 30).
  // ---------------------------------------------------------------------------------------

  ghost predicate Alive(rows: seq<Row>, from: int, t: int) {
    exists r :: r in rows && from <= r.hb.ts <= t < r.hb.ts + MAX_HEARTBEAT_GAP
  }

  ghost function AliveAt(rows: seq<Row>, from: int): int -> bool {
    t => Alive(rows, from, t)
  }

  lemma {:induction false} AnyOwnerIsAlive(rows: seq<Row>, from: int, t: int)
    requires Sorted(rows)
    ensures Counted(rows, from, t, Anything()) <==> Alive(rows, from, t)
  {
    if rows != [] {
      var row, rest := rows[0], rows[1..];
      AnyOwnerIsAlive(rest, from, t);
      CountedSorted(rows, from, t, Anything());
      assert row in rows && forall r :: r in rows <==> r == row || r in rest;
      if rest != [] && rest[0].hb.ts <= t {
        assert rest[0] in rest;
      }
    }
  }

  /** One device's total is the size of the union of its heartbeats' 30 s intervals in the window. */
  lemma {:induction false} TotalIsUnion(rows: seq<Row>, device: string, from: int, to: int)
    requires OrderedPerDevice(rows) && device != ""
    ensures DwellSeconds(rows, device, from, to, Anything())
            == Count(from, to, AliveAt(OfDevice(rows, device), from))
  {
    var own := OfDevice(rows, device);
    DwellIsPerSecond(rows, device, from, to, Anything());
    OfDeviceOrdered(rows, device);
    forall t ensures CountedAt(own, from, Anything())(t) == AliveAt(own, from)(t) {
      AnyOwnerIsAlive(own, from, t);
    }
    CountSame(from, to, CountedAt(own, from, Anything()), AliveAt(own, from));
  }

  /** The total depends only on the set of the device's rows: not on insertion order, repetition or ties. */
  lemma {:induction false} TotalDependsOnSet(a: seq<Row>, b: seq<Row>, device: string, from: int, to: int)
    requires OrderedPerDevice(a) && OrderedPerDevice(b) && device != ""
    requires SameRows(a, b, device)
    ensures DwellSeconds(a, device, from, to, Anything()) == DwellSeconds(b, device, from, to, Anything())
  {
    OfDeviceOrdered(a, device);
    OfDeviceOrdered(b, device);
    TotalIsUnion(a, device, from, to);
    TotalIsUnion(b, device, from, to);
    CountSame(from, to, AliveAt(OfDevice(a, device), from), AliveAt(OfDevice(b, device), from));
  }

  /** With some of the device's rows missing a total is never more. */
  lemma {:induction false} FewerRowsTotalLess(a: seq<Row>, b: seq<Row>, device: string, from: int, to: int)
    requires OrderedPerDevice(a) && OrderedPerDevice(b) && device != ""
    requires forall r: Row :: r.device == device && r in a ==> r in b
    ensures DwellSeconds(a, device, from, to, Anything()) <= DwellSeconds(b, device, from, to, Anything())
  {
    OfDeviceOrdered(a, device);
    OfDeviceOrdered(b, device);
    TotalIsUnion(a, device, from, to);
    TotalIsUnion(b, device, from, to);
    CountGrows(from, to, AliveAt(OfDevice(a, device), from), AliveAt(OfDevice(b, device), from), from, to);
  }

  /** One backfilled heartbeat raises a total by 0 to 30 s. */
  lemma {:induction false} BackfillRaisesByAtMostCap(a: seq<Row>, b: seq<Row>, extra: Row, device: string, from: int,
                                                     to: int)
    requires OrderedPerDevice(a) && OrderedPerDevice(b) && device != ""
    requires forall r :: r in b <==> r in a || r == extra
    ensures 0 <= DwellSeconds(b, device, from, to, Anything()) - DwellSeconds(a, device, from, to, Anything())
              <= MAX_HEARTBEAT_GAP
  {
    OfDeviceOrdered(a, device);
    OfDeviceOrdered(b, device);
    TotalIsUnion(a, device, from, to);
    TotalIsUnion(b, device, from, to);
    CountGrows(from, to, AliveAt(OfDevice(a, device), from), AliveAt(OfDevice(b, device), from),
               extra.hb.ts, extra.hb.ts + MAX_HEARTBEAT_GAP);
  }

  predicate Tie(r: Row, q: Row, device: string, from: int, to: int) {
    r.device == q.device == device && from <= r.hb.ts == q.hb.ts < to
  }

  /** Rows of the window that tie are on the same side of key. */
  ghost predicate TiesAgree(rows: seq<Row>, device: string, from: int, to: int, key: Key) {
    forall r, q :: r in rows && q in rows && Tie(r, q, device, from, to) ==> key(r.hb.seen) == key(q.hb.seen)
  }

  ghost predicate Latest(rows: seq<Row>, r: Row, t: int) {
    r in rows && r.hb.ts <= t && forall q :: q in rows ==> q.hb.ts <= r.hb.ts || t < q.hb.ts
  }

  lemma OwnerIsLatest(rows: seq<Row>, from: int, t: int, i: int)
    requires Sorted(rows) && Owns(rows, from, t, i)
    ensures Latest(rows, rows[i], t)
  {
    forall q | q in rows ensures q.hb.ts <= rows[i].hb.ts || t < q.hb.ts {
      var j :| 0 <= j < |rows| && rows[j] == q;
      if j <= i {
        SortedAt(rows, j, i);
      }
    }
  }

  /** xs holds the seconds at which table b, part of table a, may disturb a group: those of the device's
      rows that b lacks, and those at which rows of a tie on different sides of key. */
  ghost predicate Marks(xs: seq<int>, a: seq<Row>, b: seq<Row>, device: string, from: int, to: int, key: Key) {
    && (forall r: Row :: r.device == device && r in b ==> r in a)
    && (forall r: Row :: r.device == device && r in a && r !in b ==> r.hb.ts in xs)
    && (forall r, q :: r in a && q in a && Tie(r, q, device, from, to) && key(r.hb.seen) != key(q.hb.seen)
                       ==> r.hb.ts in xs)
  }

  /** Away from the marked seconds both tables count the same. */
  lemma {:induction false} SameAwayFromMarks(xs: seq<int>, a: seq<Row>, b: seq<Row>, device: string,
                                             from: int, to: int, t: int, key: Key)
    requires Sorted(a) && Sorted(b) && OneDevice(a, device) && OneDevice(b, device)
    requires Marks(xs, a, b, device, from, to, key)
    requires from <= t < to && !Near(xs, MAX_HEARTBEAT_GAP, t)
    ensures Counted(a, from, t, key) == Counted(b, from, t, key)
  {
    AnyOwnerIsAlive(a, from, t);
    AnyOwnerIsAlive(b, from, t);
    if Alive(b, from, t) {
      var r :| r in b && from <= r.hb.ts <= t < r.hb.ts + MAX_HEARTBEAT_GAP;
      assert r in a;
    }
    if Alive(a, from, t) {
      var i :| Owns(a, from, t, i) && t - a[i].hb.ts < MAX_HEARTBEAT_GAP;
      OwnerIsLatest(a, from, t, i);
      assert a[i].hb.ts !in xs;
      assert a[i] in b;
      var j :| Owns(b, from, t, j) && t - b[j].hb.ts < MAX_HEARTBEAT_GAP;
      OwnerIsLatest(b, from, t, j);
      assert Tie(a[i], b[j], device, from, to);
      OneOwner(a, from, t, i);
      OneOwner(b, from, t, j);
    }
  }

  lemma OneOwner(rows: seq<Row>, from: int, t: int, i: int)
    requires Owns(rows, from, t, i)
    ensures forall j :: Owns(rows, from, t, j) ==> j == i
  {
  }

  /** MAIN: whatever rows are missing from a table and however ties fall, a group's seconds change only
      within 30 s of a marked second, so by at most 30 s for each. */
  lemma {:induction false} DwellDiffersNearMarks(xs: seq<int>, a: seq<Row>, b: seq<Row>, device: string,
                                                 from: int, to: int, key: Key)
    requires OrderedPerDevice(a) && OrderedPerDevice(b) && device != ""
    requires Marks(xs, a, b, device, from, to, key)
    ensures DwellSeconds(a, device, from, to, key) <= DwellSeconds(b, device, from, to, key) + MAX_HEARTBEAT_GAP * |xs|
    ensures DwellSeconds(b, device, from, to, key) <= DwellSeconds(a, device, from, to, key) + MAX_HEARTBEAT_GAP * |xs|
    ensures forall t :: from <= t < to && !Near(xs, MAX_HEARTBEAT_GAP, t) ==>
              Counted(OfDevice(a, device), from, t, key) == Counted(OfDevice(b, device), from, t, key)
  {
    var oa, ob := OfDevice(a, device), OfDevice(b, device);
    OfDeviceOrdered(a, device);
    OfDeviceOrdered(b, device);
    DwellIsPerSecond(a, device, from, to, key);
    DwellIsPerSecond(b, device, from, to, key);
    forall t | from <= t < to && !Near(xs, MAX_HEARTBEAT_GAP, t)
      ensures CountedAt(oa, from, key)(t) == CountedAt(ob, from, key)(t)
    {
      SameAwayFromMarks(xs, oa, ob, device, from, to, t, key);
    }
    CountDiffersNear(from, to, CountedAt(oa, from, key), CountedAt(ob, from, key), xs, MAX_HEARTBEAT_GAP);
  }

  /** One late row changes a group only in the 30 s from its own second on. */
  lemma {:induction false} LateRowStaysLocal(a: seq<Row>, b: seq<Row>, extra: Row, device: string,
                                             from: int, to: int, key: Key)
    requires OrderedPerDevice(a) && OrderedPerDevice(b) && device != ""
    requires forall r :: r in b <==> r in a || r == extra
    requires forall r, q :: r in a && q in a && Tie(r, q, device, from, to) && r.hb.ts != extra.hb.ts
                            ==> key(r.hb.seen) == key(q.hb.seen)
    ensures -MAX_HEARTBEAT_GAP
            <= DwellSeconds(b, device, from, to, key) - DwellSeconds(a, device, from, to, key) <= MAX_HEARTBEAT_GAP
    ensures forall t :: from <= t < to && !(extra.hb.ts <= t < extra.hb.ts + MAX_HEARTBEAT_GAP) ==>
              Counted(OfDevice(a, device), from, t, key) == Counted(OfDevice(b, device), from, t, key)
  {
    DwellDiffersNearMarks([extra.hb.ts], b, a, device, from, to, key);
    forall t | !(extra.hb.ts <= t < extra.hb.ts + MAX_HEARTBEAT_GAP)
      ensures !Near([extra.hb.ts], MAX_HEARTBEAT_GAP, t) { }
  }

  ghost predicate SameRows(a: seq<Row>, b: seq<Row>, device: string) {
    forall r: Row :: r.device == device ==> (r in a <==> r in b)
  }

  /** A group's seconds depend only on the set of the device's rows when ties in the window agree. */
  lemma {:induction false} DwellDependsOnSet(a: seq<Row>, b: seq<Row>, device: string, from: int, to: int, key: Key)
    requires OrderedPerDevice(a) && OrderedPerDevice(b) && device != ""
    requires TiesAgree(a, device, from, to, key) && SameRows(a, b, device)
    ensures DwellSeconds(a, device, from, to, key) == DwellSeconds(b, device, from, to, key)
  {
    DwellDiffersNearMarks([], a, b, device, from, to, key);
  }

  // ---------------------------------------------------------------------------------------
  // Ties. Which order SQLite picks among a device's rows of equal ts.
  // ---------------------------------------------------------------------------------------

  /** b is a's table in another order, as far as the device goes. */
  ghost predicate Reorders(a: seq<Row>, b: seq<Row>, device: string) {
    OrderedPerDevice(b) && multiset(OfDevice(a, device)) == multiset(OfDevice(b, device))
  }

  lemma {:induction false} ReordersSameRows(a: seq<Row>, b: seq<Row>, device: string)
    requires OrderedPerDevice(a) && Reorders(a, b, device)
    ensures SameRows(a, b, device)
  {
    OfDeviceOrdered(a, device);
    OfDeviceOrdered(b, device);
    forall r: Row | r.device == device ensures r in a <==> r in b {
      assert r in OfDevice(a, device) <==> r in multiset(OfDevice(a, device));
      assert r in OfDevice(b, device) <==> r in multiset(OfDevice(b, device));
    }
  }

  function Swapped(rows: seq<Row>, i: nat, k: nat): seq<Row>
    requires i < |rows| && k < |rows|
  {
    rows[i := rows[k]][k := rows[i]]
  }

  /** k is the last of the rows at its second. */
  ghost predicate EndsTie(rows: seq<Row>, k: nat) {
    k < |rows| && forall j :: k < j < |rows| ==> rows[j].hb.ts > rows[k].hb.ts
  }

  lemma {:induction false} TieEnd(rows: seq<Row>, i: nat) returns (k: nat)
    requires Sorted(rows) && i < |rows|
    ensures EndsTie(rows, k) && rows[k].hb.ts == rows[i].hb.ts
    decreases |rows| - i
  {
    if i + 1 < |rows| && rows[i + 1].hb.ts == rows[i].hb.ts {
      k := TieEnd(rows, i + 1);
    } else {
      k := i;
      forall j | k < j < |rows| ensures rows[j].hb.ts > rows[k].hb.ts {
        SortedAt(rows, i, i + 1);
        SortedAt(rows, i + 1, j);
      }
    }
  }

  /** Two rows of the same second may change places. */
  lemma {:induction false} SwapReorders(a: seq<Row>, device: string, i: nat, k: nat)
    requires OrderedPerDevice(a)
    requires var own := OfDevice(a, device);
             i < |own| && k < |own| && own[i].hb.ts == own[k].hb.ts
    ensures var b := Swapped(OfDevice(a, device), i, k);
            Reorders(a, b, device) && OfDevice(b, device) == b
  {
    var own := OfDevice(a, device);
    OfDeviceOrdered(a, device);
    SwappedRows(own, device, i, k);
    SwappedBag(own, i, k);
    OwnRows(Swapped(own, i, k), device);
  }

  lemma SwappedBag(rows: seq<Row>, i: nat, k: nat)
    requires i < |rows| && k < |rows|
    ensures multiset(Swapped(rows, i, k)) == multiset(rows)
  {
  }

  lemma {:induction false} SwappedRows(own: seq<Row>, device: string, i: nat, k: nat)
    requires Sorted(own) && OneDevice(own, device)
    requires i < |own| && k < |own| && own[i].hb.ts == own[k].hb.ts
    ensures var b := Swapped(own, i, k);
            OrderedPerDevice(b) && OneDevice(b, device)
  {
    var b := Swapped(own, i, k);
    assert forall m :: 0 <= m < |own| ==> own[m] in own;
    assert forall m :: 0 <= m < |b| ==> b[m].hb.ts == own[m].hb.ts && b[m].device == device;
    SortedIsOrdered(own);
    forall m, n | 0 <= m < n < |b| ensures b[m].hb.ts <= b[n].hb.ts {
      assert own[m].device == own[n].device;
    }
  }

  /** Whoever comes last at a second decides that second, and nothing else changes. */
  lemma {:induction false} LastDecides(p: seq<Row>, q: seq<Row>, k: nat, from: int, to: int, key: Key)
    requires |p| == |q| && EndsTie(q, k) && from <= q[k].hb.ts < to
    requires forall m :: 0 <= m < |p| ==> p[m].hb.ts == q[m].hb.ts
    requires forall m :: 0 <= m < |p| && q[m].hb.ts != q[k].hb.ts ==> p[m] == q[m]
    requires key(q[k].hb.seen) && !key(p[k].hb.seen)
    ensures PerSecond(p, from, to, key) < PerSecond(q, from, to, key)
  {
    var x := q[k].hb.ts;
    forall t, i ensures Owns(p, from, t, i) <==> Owns(q, from, t, i) {
    }
    forall t, i | Owns(q, from, t, i) ensures p[i] == q[i] || i == k {
      assert i < k ==> t < q[k].hb.ts;
    }
    forall t | from <= t < to && CountedAt(p, from, key)(t) ensures CountedAt(q, from, key)(t) {
      var i :| Owns(p, from, t, i) && t - p[i].hb.ts < MAX_HEARTBEAT_GAP && key(p[i].hb.seen);
      assert Owns(q, from, t, i);
    }
    assert Owns(q, from, x, k);
    forall i | Owns(p, from, x, i) ensures i == k {
      assert Owns(q, from, x, i);
    }
    CountLess(from, to, x, CountedAt(p, from, key), CountedAt(q, from, key));
  }

  lemma {:induction false} TieOrdersDiffer(own: seq<Row>, i: nat, j: nat, k: nat, from: int, to: int, key: Key)
    requires i < |own| && j < |own| && EndsTie(own, k) && own[i].hb.ts == own[j].hb.ts == own[k].hb.ts
    requires from <= own[k].hb.ts < to && key(own[i].hb.seen) && !key(own[j].hb.seen)
    ensures PerSecond(Swapped(own, j, k), from, to, key) < PerSecond(Swapped(own, i, k), from, to, key)
  {
    LastDecides(Swapped(own, j, k), Swapped(own, i, k), k, from, to, key);
  }

  /** Two rows that tie on different sides of key: some order of the same table gives other seconds. */
  lemma {:induction false} TieUnsettles(a: seq<Row>, device: string, from: int, to: int, key: Key, r: Row, q: Row)
    requires OrderedPerDevice(a) && device != "" && r in a && q in a && Tie(r, q, device, from, to)
    requires key(r.hb.seen) && !key(q.hb.seen)
    ensures exists b :: Reorders(a, b, device) &&
              DwellSeconds(b, device, from, to, key) != DwellSeconds(a, device, from, to, key)
  {
    var own := OfDevice(a, device);
    OfDeviceOrdered(a, device);
    var i :| 0 <= i < |own| && own[i] == r;
    var j :| 0 <= j < |own| && own[j] == q;
    var k := TieEnd(own, i);
    var counts, misses := Swapped(own, i, k), Swapped(own, j, k);
    SwapReorders(a, device, i, k);
    SwapReorders(a, device, j, k);
    TieOrdersDiffer(own, i, j, k, from, to, key);
    DwellIsPerSecond(counts, device, from, to, key);
    DwellIsPerSecond(misses, device, from, to, key);
  }

  /** MAIN: a group's seconds are the same for every tie order if and only if the device's rows that
      tie in the window agree on being in the group. */
  lemma {:induction false} SettledIffTiesAgree(a: seq<Row>, device: string, from: int, to: int, key: Key)
    requires OrderedPerDevice(a) && device != ""
    ensures TiesAgree(a, device, from, to, key) <==>
            forall b :: OrderedPerDevice(b) && SameRows(a, b, device) ==>
              DwellSeconds(b, device, from, to, key) == DwellSeconds(a, device, from, to, key)
    ensures TiesAgree(a, device, from, to, key) <==>
            forall b :: Reorders(a, b, device) ==>
              DwellSeconds(b, device, from, to, key) == DwellSeconds(a, device, from, to, key)
  {
    if TiesAgree(a, device, from, to, key) {
      forall b | OrderedPerDevice(b) && SameRows(a, b, device)
        ensures DwellSeconds(b, device, from, to, key) == DwellSeconds(a, device, from, to, key)
      {
        DwellDependsOnSet(a, b, device, from, to, key);
      }
    } else {
      var r, q :| r in a && q in a && Tie(r, q, device, from, to) && key(r.hb.seen) && !key(q.hb.seen);
      TieUnsettles(a, device, from, to, key, r, q);
    }
    forall b | Reorders(a, b, device) ensures SameRows(a, b, device) {
      ReordersSameRows(a, b, device);
    }
  }

  /** The smallest case: two rows tie on different sides of key. */
  lemma {:induction false} TieOrderMatters(active: Row, idle: Row, key: Key)
    requires active.device == idle.device == "d" && active.hb.ts == idle.hb.ts == 0
    requires key(active.hb.seen) && !key(idle.hb.seen)
    ensures DwellSeconds([idle, active], "d", 0, 30, key) == 30
    ensures DwellSeconds([active, idle], "d", 0, 30, key) == 0
  {
    assert Rng([idle], "d", 0, 30) == [idle] && Rng([active], "d", 0, 30) == [active];
    assert [idle, active][1..] == [active] && [active, idle][1..] == [idle];
    assert [active][1..] == [] && [idle][1..] == [];
    assert SumSecs([], 30, key) == 0;
    assert Secs(active, [], 30) == 30 && Secs(idle, [active], 30) == Secs(active, [idle], 30) == 0;
    assert SumSecs([active], 30, key) == 30;
    assert SumSecs([idle], 30, key) == 0;
  }

  // ---------------------------------------------------------------------------------------
  // Windows.
  // ---------------------------------------------------------------------------------------

  lemma {:induction false} DwellWithinWindow(rows: seq<Row>, device: string, from: int, to: int, key: Key)
    requires OrderedPerDevice(rows) && device != ""
    ensures 0 <= DwellSeconds(rows, device, from, to, key) <= if from < to then to - from else 0
  {
    DwellIsPerSecond(rows, device, from, to, key);
    CountAtMost(from, to, CountedAt(OfDevice(rows, device), from, key));
  }

  /** Splitting a window never gains time for any group, and loses at most 29 s. */
  lemma {:induction false} SplitLosesAtMost29(rows: seq<Row>, device: string, from: int, mid: int, to: int, key: Key)
    requires OrderedPerDevice(rows) && device != "" && from <= mid <= to
    ensures 0 <= DwellSeconds(rows, device, from, to, key) - DwellSeconds(rows, device, from, mid, key)
                 - DwellSeconds(rows, device, mid, to, key) <= MAX_HEARTBEAT_GAP - 1
  {
    var own := OfDevice(rows, device);
    DwellIsPerSecond(rows, device, from, to, key);
    DwellIsPerSecond(rows, device, from, mid, key);
    DwellIsPerSecond(rows, device, mid, to, key);
    var f, g := CountedAt(own, mid, key), CountedAt(own, from, key);
    CountSplit(from, mid, to, g);
    forall t | mid <= t
      ensures f(t) ==> g(t)
      ensures g(t) && !f(t) ==> t < mid + MAX_HEARTBEAT_GAP - 1
    {
      forall i ensures Owns(own, mid, t, i) <==> Owns(own, from, t, i) && mid <= own[i].hb.ts { }
    }
    CountGrows(mid, to, f, g, mid, mid + MAX_HEARTBEAT_GAP - 1);
  }

  ghost predicate Increasing(cuts: seq<int>) {
    forall i, j :: 0 <= i < j < |cuts| ==> cuts[i] <= cuts[j]
  }

  ghost function SumOfPieces(rows: seq<Row>, device: string, cuts: seq<int>, key: Key): int {
    if |cuts| < 2 then 0
    else SumOfPieces(rows, device, cuts[..|cuts| - 1], key)
         + DwellSeconds(rows, device, cuts[|cuts| - 2], cuts[|cuts| - 1], key)
  }

  /** Splitting a window into k pieces loses at most 29 s per cut. */
  lemma {:induction false} PiecesLoseAtMost29PerCut(rows: seq<Row>, device: string, cuts: seq<int>, key: Key)
    requires OrderedPerDevice(rows) && device != "" && |cuts| >= 2 && Increasing(cuts)
    ensures 0 <= DwellSeconds(rows, device, cuts[0], cuts[|cuts| - 1], key)
                 - SumOfPieces(rows, device, cuts, key) <= (MAX_HEARTBEAT_GAP - 1) * (|cuts| - 2)
    decreases |cuts|
  {
    var n := |cuts|;
    if n > 2 {
      var front := cuts[..n - 1];
      PiecesLoseAtMost29PerCut(rows, device, front, key);
      SplitLosesAtMost29(rows, device, cuts[0], cuts[n - 2], cuts[n - 1], key);
    } else {
      assert SumOfPieces(rows, device, cuts[..1], key) == 0;
    }
  }

  /** The bound of 29 s is reached. */
  lemma {:induction false} SplitLossIsReached(row: Row)
    requires row.device == "d" && row.hb.ts == 0
    ensures DwellSeconds([row], "d", 0, 30, Anything()) == 30
    ensures DwellSeconds([row], "d", 0, 1, Anything()) == 1
    ensures DwellSeconds([row], "d", 1, 30, Anything()) == 0
  {
    assert Rng([], "d", 0, 30) == [] && Rng([], "d", 0, 1) == [] && Rng([], "d", 1, 30) == [];
    assert [row][1..] == [];
    assert Rng([row], "d", 0, 30) == [row] && Rng([row], "d", 0, 1) == [row];
    assert SumSecs([], 30, Anything()) == 0 && SumSecs([], 1, Anything()) == 0;
  }

  // ---------------------------------------------------------------------------------------
  // Groups and devices.
  // ---------------------------------------------------------------------------------------

  function SumOver<T>(names: seq<T>, f: T -> int): int {
    if names == [] then 0 else f(names[0]) + SumOver(names[1..], f)
  }

  ghost predicate Distinct<T>(names: seq<T>) {
    forall i, j :: 0 <= i < j < |names| ==> names[i] != names[j]
  }

  lemma {:induction false} SumOverSame<T>(names: seq<T>, f: T -> int, g: T -> int)
    requires forall n :: n in names ==> f(n) == g(n)
    ensures SumOver(names, f) == SumOver(names, g)
  {
    if names != [] {
      SumOverSame(names[1..], f, g);
    }
  }

  /** Raising f at one of the names by x raises the sum by x. */
  lemma {:induction false} SumOverRaised<T>(names: seq<T>, f: T -> int, g: T -> int, at: T, x: int)
    requires Distinct(names) && at in names
    requires forall n :: n in names ==> g(n) == f(n) + if n == at then x else 0
    ensures SumOver(names, g) == SumOver(names, f) + x
  {
    if names[0] == at {
      forall n | n in names[1..] ensures n != at {
        var k :| 0 <= k < |names[1..]| && names[1..][k] == n;
        assert names[k + 1] == n;
      }
      SumOverSame(names[1..], f, g);
    } else {
      SumOverRaised(names[1..], f, g, at, x);
    }
  }

  datatype Column = ByCategory | ByApp

  function GroupOf(column: Column, seen: Label): string {
    match column
    case ByCategory => seen.category
    case ByApp => seen.app
  }

  /** The group_by enum; any other value is an error. */
  function GroupColumn(groupBy: string): (r: Option<Column>)
    ensures r.None? <==> groupBy != "category" && groupBy != "app"
    ensures r.Some? ==>
              forall seen :: GroupOf(r.value, seen) == if groupBy == "category" then seen.category else seen.app
  {
    match groupBy
    case "category" => Some(ByCategory)
    case "app" => Some(ByApp)
    case _ => None
  }

  function InGroup(column: Column, name: string): Key {
    (seen: Label) => GroupOf(column, seen) == name
  }

  function GroupSums(rows: seq<Row>, to: int, column: Column): string -> int {
    (name: string) => SumSecs(rows, to, InGroup(column, name))
  }

  /** GROUP BY splits a sum: every row is in exactly one group. */
  lemma {:induction false} GroupsPartition(rows: seq<Row>, to: int, column: Column, names: seq<string>)
    requires Distinct(names) && forall r :: r in rows ==> GroupOf(column, r.hb.seen) in names
    ensures SumOver(names, GroupSums(rows, to, column)) == SumSecs(rows, to, Anything())
  {
    if rows == [] {
      SumOverZero(names, GroupSums(rows, to, column));
    } else {
      var row, rest := rows[0], rows[1..];
      assert row in rows && forall r :: r in rest ==> r in rows;
      GroupsPartition(rest, to, column, names);
      SumOverRaised(names, GroupSums(rest, to, column), GroupSums(rows, to, column),
                    GroupOf(column, row.hb.seen), Secs(row, rest, to));
    }
  }

  lemma {:induction false} SumOverZero<T>(names: seq<T>, f: T -> int)
    requires forall n :: n in names ==> f(n) == 0
    ensures SumOver(names, f) == 0
  {
    if names != [] {
      SumOverZero(names[1..], f);
    }
  }

  datatype Bucket = Bucket(key: string, seconds: int)

  function Keys(out: seq<Bucket>): seq<string> {
    seq(|out|, i requires 0 <= i < |out| => out[i].key)
  }

  function SumBuckets(out: seq<Bucket>): int {
    if out == [] then 0 else out[0].seconds + SumBuckets(out[1..])
  }

  /** The rows DwellUsage may return: one per group present in the window, largest first. */
  ghost predicate IsUsage(out: seq<Bucket>, rows: seq<Row>, deviceID: string, from: int, to: int, column: Column) {
    && Distinct(Keys(out))
    && (forall r :: r in Rng(rows, deviceID, from, to) ==> GroupOf(column, r.hb.seen) in Keys(out))
    && (forall b :: b in out ==> b.seconds == DwellSeconds(rows, deviceID, from, to, InGroup(column, b.key)))
    && (forall b :: b in out ==> exists r :: r in Rng(rows, deviceID, from, to) && GroupOf(column, r.hb.seen) == b.key)
    && (forall i, j :: 0 <= i < j < |out| ==> out[i].seconds >= out[j].seconds)
  }

  // ---------------------------------------------------------------------------------------
  // The grouped query.
  // ---------------------------------------------------------------------------------------

  function GroupNames(rows: seq<Row>, column: Column): seq<string> {
    if rows == [] then []
    else
      var rest, name := GroupNames(rows[1..], column), GroupOf(column, rows[0].hb.seen);
      if name in rest then rest else [name] + rest
  }

  /** ORDER BY seconds DESC, one bucket at a time. */
  function Placed(b: Bucket, out: seq<Bucket>): seq<Bucket> {
    if out == [] || out[0].seconds <= b.seconds then [b] + out else [out[0]] + Placed(b, out[1..])
  }

  function Ranked(names: seq<string>, f: string -> int): seq<Bucket> {
    if names == [] then [] else Placed(Bucket(names[0], f(names[0])), Ranked(names[1..], f))
  }

  ghost predicate Descending(out: seq<Bucket>) {
    forall i, j :: 0 <= i < j < |out| ==> out[i].seconds >= out[j].seconds
  }

  lemma {:induction false} GroupNamesAre(rows: seq<Row>, column: Column)
    ensures Distinct(GroupNames(rows, column))
    ensures forall name :: name in GroupNames(rows, column) <==>
              exists r :: r in rows && GroupOf(column, r.hb.seen) == name
  {
    if rows != [] {
      var names := GroupNames(rows, column);
      GroupNamesAre(rows[1..], column);
      assert forall r :: r in rows <==> r == rows[0] || r in rows[1..];
      forall name ensures name in names <==> exists r :: r in rows && GroupOf(column, r.hb.seen) == name {
        if r :| r in rows && GroupOf(column, r.hb.seen) == name {
          assert r == rows[0] || name in GroupNames(rows[1..], column);
        }
      }
    }
  }

  lemma DistinctTail(names: seq<string>)
    requires Distinct(names) && names != []
    ensures Distinct(names[1..]) && names[0] !in names[1..]
  {
  }

  lemma {:induction false} PlacedKeeps(b: Bucket, out: seq<Bucket>)
    requires Descending(out) && Distinct(Keys(out)) && b.key !in Keys(out)
    ensures Descending(Placed(b, out)) && Distinct(Keys(Placed(b, out)))
    ensures forall x :: x in Placed(b, out) <==> x == b || x in out
    ensures forall name :: name in Keys(Placed(b, out)) <==> name == b.key || name in Keys(out)
  {
    if out == [] || out[0].seconds <= b.seconds {
      assert Keys(Placed(b, out)) == [b.key] + Keys(out);
    } else {
      var rest := out[1..];
      assert Keys(out)[1..] == Keys(rest);
      DistinctTail(Keys(out));
      PlacedKeeps(b, rest);
      var placed := Placed(b, rest);
      assert Keys(Placed(b, out)) == [out[0].key] + Keys(placed);
      forall j | 0 <= j < |placed| ensures out[0].seconds >= placed[j].seconds {
        assert placed[j] in placed;
      }
    }
  }

  lemma {:induction false} RankedIs(names: seq<string>, f: string -> int)
    requires Distinct(names)
    ensures var out := Ranked(names, f);
            && Descending(out) && Distinct(Keys(out))
            && (forall name :: name in Keys(out) <==> name in names)
            && (forall b :: b in out ==> b.key in names && b.seconds == f(b.key))
  {
    if names != [] {
      RankedIs(names[1..], f);
      assert names[0] !in names[1..];
      PlacedKeeps(Bucket(names[0], f(names[0])), Ranked(names[1..], f));
    }
  }

  /** What the grouped query selects. */
  function Selected(window: seq<Row>, to: int, column: Column): seq<Bucket> {
    Ranked(GroupNames(window, column), GroupSums(window, to, column))
  }

  lemma {:induction false} SelectedIsUsage(rows: seq<Row>, deviceID: string, from: int, to: int, column: Column)
    ensures IsUsage(Selected(Rng(rows, deviceID, from, to), to, column), rows, deviceID, from, to, column)
  {
    var window := Rng(rows, deviceID, from, to);
    GroupNamesAre(window, column);
    RankedIs(GroupNames(window, column), GroupSums(window, to, column));
  }

  /** Seconds by category or by app; None is the error for any other group_by. */
  method DwellUsage(rows: seq<Row>, deviceID: string, from: int, to: int, groupBy: string)
    returns (usage: Option<seq<Bucket>>)
    ensures groupBy == "category" ==> usage.Some? && IsUsage(usage.value, rows, deviceID, from, to, ByCategory)
    ensures groupBy == "app" ==> usage.Some? && IsUsage(usage.value, rows, deviceID, from, to, ByApp)
    ensures groupBy != "category" && groupBy != "app" ==> usage.None?
  {
    var column := GroupColumn(groupBy);
    if column.None? {
      return None;
    }
    var selected := Selected(Rng(rows, deviceID, from, to), to, column.value);
    SelectedIsUsage(rows, deviceID, from, to, column.value);
    var out := [];
    for i := 0 to |selected|
      invariant out == selected[..i]
    {
      out := out + [selected[i]];
    }
    assert out == selected;
    return Some(out);
  }

  function ActiveSeconds(rows: seq<Row>, deviceID: string, from: int, to: int): int {
    DwellSeconds(rows, deviceID, from, to, IsActive())
  }

  function IdleSeconds(rows: seq<Row>, deviceID: string, from: int, to: int): int {
    DwellSeconds(rows, deviceID, from, to, IsIdle())
  }

  lemma {:induction false} BucketsSum(out: seq<Bucket>, f: string -> int)
    requires forall b :: b in out ==> b.seconds == f(b.key)
    ensures SumBuckets(out) == SumOver(Keys(out), f)
  {
    if out != [] {
      BucketsSum(out[1..], f);
      assert Keys(out)[1..] == Keys(out[1..]);
    }
  }

  lemma {:induction false} ActivePlusIdle(rows: seq<Row>, to: int)
    ensures SumSecs(rows, to, IsActive()) + SumSecs(rows, to, IsIdle()) == SumSecs(rows, to, Anything())
  {
    if rows != [] {
      ActivePlusIdle(rows[1..], to);
    }
  }

  /** Whatever DwellUsage returns, by category or by app, adds up to ActiveRatio's total. */
  lemma {:induction false} UsageAddsUp(out: seq<Bucket>, rows: seq<Row>, deviceID: string, from: int, to: int,
                                       column: Column)
    requires IsUsage(out, rows, deviceID, from, to, column)
    ensures SumBuckets(out) == DwellSeconds(rows, deviceID, from, to, Anything())
    ensures SumBuckets(out) == ActiveSeconds(rows, deviceID, from, to) + IdleSeconds(rows, deviceID, from, to)
  {
    var window := Rng(rows, deviceID, from, to);
    BucketsSum(out, GroupSums(window, to, column));
    GroupsPartition(window, to, column, Keys(out));
    ActivePlusIdle(window, to);
  }

  lemma {:induction false} LeadOfDevice(rest: seq<Row>, device: string, to: int)
    ensures LeadTs(rest, device, to) == LeadTs(OfDevice(rest, device), device, to)
  {
    if rest != [] {
      LeadOfDevice(rest[1..], device, to);
    }
  }

  lemma {:induction false} RngThenDevice(rows: seq<Row>, device: string, from: int, to: int)
    requires device != ""
    ensures Rng(rows, device, from, to) == OfDevice(Rng(rows, "", from, to), device)
  {
    if rows != [] {
      RngThenDevice(rows[1..], device, from, to);
      var kept := Rng(rows[1..], "", from, to);
      assert ([rows[0]] + kept)[1..] == kept;
    }
  }

  function DeviceSums(rows: seq<Row>, to: int, key: Key): string -> int {
    (device: string) => SumSecs(OfDevice(rows, device), to, key)
  }

  /** What one more row in front adds to each device's sum. */
  lemma DeviceSumsCons(rows: seq<Row>, to: int, key: Key, device: string)
    requires rows != []
    ensures DeviceSums(rows, to, key)(device) == DeviceSums(rows[1..], to, key)(device)
            + if device == rows[0].device && key(rows[0].hb.seen) then Secs(rows[0], rows[1..], to) else 0
  {
    var own := OfDevice(rows[1..], rows[0].device);
    assert ([rows[0]] + own)[1..] == own;
    LeadOfDevice(rows[1..], rows[0].device, to);
  }

  lemma {:induction false} DevicesPartition(rows: seq<Row>, to: int, key: Key, devices: seq<string>)
    requires Distinct(devices) && forall r :: r in rows ==> r.device in devices
    ensures SumSecs(rows, to, key) == SumOver(devices, DeviceSums(rows, to, key))
  {
    if rows == [] {
      SumOverZero(devices, DeviceSums(rows, to, key));
    } else {
      var row, rest := rows[0], rows[1..];
      assert row in rows && forall r :: r in rest ==> r in rows;
      DevicesPartition(rest, to, key, devices);
      hide SumOver, Distinct, DeviceSums;
      forall d ensures DeviceSums(rows, to, key)(d) == DeviceSums(rest, to, key)(d)
                       + if d == row.device && key(row.hb.seen) then Secs(row, rest, to) else 0
      {
        DeviceSumsCons(rows, to, key, d);
      }
      SumOverRaised(devices, DeviceSums(rest, to, key), DeviceSums(rows, to, key), row.device,
                    if key(row.hb.seen) then Secs(row, rest, to) else 0);
    }
  }

  function PerDevice(rows: seq<Row>, from: int, to: int, key: Key): string -> int {
    (device: string) => DwellSeconds(rows, device, from, to, key)
  }

  /** The fleet query, one pass over interleaved devices, is the sum of the device queries. */
  lemma {:induction false} FleetIsSumOfDevices(rows: seq<Row>, devices: seq<string>, from: int, to: int, key: Key)
    requires Distinct(devices) && "" !in devices && forall r :: r in rows ==> r.device in devices
    ensures DwellSeconds(rows, "", from, to, key) == SumOver(devices, PerDevice(rows, from, to, key))
  {
    var window := Rng(rows, "", from, to);
    RngMembers(rows, "", from, to);
    DevicesPartition(window, to, key, devices);
    forall d | d in devices ensures DeviceSums(window, to, key)(d) == PerDevice(rows, from, to, key)(d) {
      RngThenDevice(rows, d, from, to);
    }
    SumOverSame(devices, DeviceSums(window, to, key), PerDevice(rows, from, to, key));
  }

  lemma {:induction false} FleetSplitSums(rows: seq<Row>, devices: seq<string>, from: int, mid: int, to: int, key: Key)
    requires OrderedPerDevice(rows) && "" !in devices && from <= mid <= to
    ensures 0 <= SumOver(devices, PerDevice(rows, from, to, key)) - SumOver(devices, PerDevice(rows, from, mid, key))
                 - SumOver(devices, PerDevice(rows, mid, to, key)) <= (MAX_HEARTBEAT_GAP - 1) * |devices|
  {
    if devices != [] {
      FleetSplitSums(rows, devices[1..], from, mid, to, key);
      assert devices[0] in devices;
      SplitLosesAtMost29(rows, devices[0], from, mid, to, key);
    }
  }

  /** Splitting a fleet-wide window loses at most 29 s per device. */
  lemma {:induction false} FleetSplitLosesAtMost29PerDevice(rows: seq<Row>, devices: seq<string>, from: int, mid: int,
                                                            to: int, key: Key)
    requires OrderedPerDevice(rows) && from <= mid <= to
    requires Distinct(devices) && "" !in devices && forall r :: r in rows ==> r.device in devices
    ensures 0 <= DwellSeconds(rows, "", from, to, key) - DwellSeconds(rows, "", from, mid, key)
                 - DwellSeconds(rows, "", mid, to, key) <= (MAX_HEARTBEAT_GAP - 1) * |devices|
  {
    FleetIsSumOfDevices(rows, devices, from, to, key);
    FleetIsSumOfDevices(rows, devices, from, mid, key);
    FleetIsSumOfDevices(rows, devices, mid, to, key);
    FleetSplitSums(rows, devices, from, mid, to, key);
  }

  /** Active means active: a device that was never idle has no idle seconds, and the other way round. */
  lemma {:induction false} AlwaysActive(rows: seq<Row>, deviceID: string, from: int, to: int)
    ensures (forall r :: r in rows ==> r.hb.seen.active) ==> IdleSeconds(rows, deviceID, from, to) == 0
    ensures (forall r :: r in rows ==> !r.hb.seen.active) ==> ActiveSeconds(rows, deviceID, from, to) == 0
  {
    var window := Rng(rows, deviceID, from, to);
    RngMembers(rows, deviceID, from, to);
    if forall r :: r in rows ==> r.hb.seen.active {
      NoneSelected(window, to, IsIdle());
    }
    if forall r :: r in rows ==> !r.hb.seen.active {
      NoneSelected(window, to, IsActive());
    }
  }

  lemma {:induction false} NoneSelected(rows: seq<Row>, to: int, key: Key)
    requires forall r :: r in rows ==> !key(r.hb.seen)
    ensures SumSecs(rows, to, key) == 0
  {
    if rows != [] {
      assert rows[0] in rows;
      NoneSelected(rows[1..], to, key);
    }
  }
}
