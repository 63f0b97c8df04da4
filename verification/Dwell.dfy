/** Dwell time as the server computes it (internal/server/query.go), and the per-second meaning
    it is proved against. */
module Dwell {
  import opened Protocol
  import opened Counting

  /** One row of the heartbeats table, as far as the dwell queries read it. */
  datatype Row = Row(device: string, hb: Heartbeat)

  /** A selection of rows by what they saw: one group, or one side of the active/idle split. */
  type Key = Label -> bool

  // ---------------------------------------------------------------------------------------
  // The query. A sequence of rows stands for a table together with the order in which each
  // device's rows leave ORDER BY ts; rows with equal ts are in whatever order SQLite chose.
  // ---------------------------------------------------------------------------------------

  /** CTE rng: the rows of the window, of one device or (deviceID "") of the whole fleet. */
  function Rng(rows: seq<Row>, deviceID: string, from: int, to: int): seq<Row> {
    if rows == [] then []
    else
      var rest := Rng(rows[1..], deviceID, from, to);
      if from <= rows[0].hb.ts < to && (deviceID == "" || rows[0].device == deviceID)
      then [rows[0]] + rest else rest
  }

  /** COALESCE(LEAD(ts) OVER (PARTITION BY device_id ORDER BY ts), :to), rest being the rows that
      follow in order. */
  function LeadTs(rest: seq<Row>, device: string, to: int): int {
    if rest == [] then to
    else if rest[0].device == device then rest[0].hb.ts
    else LeadTs(rest[1..], device, to)
  }

  /** Column secs of CTE dwell: clipped at the end of the window, then capped. */
  function Secs(row: Row, rest: seq<Row>, to: int): int {
    var next := LeadTs(rest, row.device, to);
    var raw := (if next < to then next else to) - row.hb.ts;
    if raw > MAX_HEARTBEAT_GAP then MAX_HEARTBEAT_GAP else raw
  }

  /** SUM(secs) over the rows selected by key. */
  function SumSecs(rows: seq<Row>, to: int, key: Key): int {
    if rows == [] then 0
    else (if key(rows[0].hb.seen) then Secs(rows[0], rows[1..], to) else 0) + SumSecs(rows[1..], to, key)
  }

  function DwellSeconds(rows: seq<Row>, deviceID: string, from: int, to: int, key: Key): int {
    SumSecs(Rng(rows, deviceID, from, to), to, key)
  }

  predicate OrderedPerDevice(rows: seq<Row>) {
    forall i, j :: 0 <= i < j < |rows| && rows[i].device == rows[j].device ==> rows[i].hb.ts <= rows[j].hb.ts
  }

  /** No row is later than any that follows it. */
  ghost predicate Sorted(rows: seq<Row>) {
    rows != [] ==> Sorted(rows[1..]) && forall r :: r in rows[1..] ==> rows[0].hb.ts <= r.hb.ts
  }

  function OfDevice(rows: seq<Row>, device: string): seq<Row> {
    if rows == [] then []
    else if rows[0].device == device then [rows[0]] + OfDevice(rows[1..], device)
    else OfDevice(rows[1..], device)
  }

  function Anything(): Key { (seen: Label) => true }

  function IsActive(): Key { (seen: Label) => seen.active }

  function IsIdle(): Key { (seen: Label) => !seen.active }

  // ---------------------------------------------------------------------------------------
  // The meaning. Second t belongs to the last heartbeat of the window at or before t.
  // ---------------------------------------------------------------------------------------

  ghost predicate Owns(rows: seq<Row>, from: int, t: int, i: int) {
    && 0 <= i < |rows|
    && from <= rows[i].hb.ts <= t
    && forall j :: i < j < |rows| ==> t < rows[j].hb.ts
  }

  /** Second t counts for key: its owner is less than MAX_HEARTBEAT_GAP old and selected. */
  ghost predicate Counted(rows: seq<Row>, from: int, t: int, key: Key) {
    exists i :: Owns(rows, from, t, i) && t - rows[i].hb.ts < MAX_HEARTBEAT_GAP && key(rows[i].hb.seen)
  }

  ghost function CountedAt(rows: seq<Row>, from: int, key: Key): int -> bool {
    t => Counted(rows, from, t, key)
  }

  ghost function PerSecond(rows: seq<Row>, from: int, to: int, key: Key): nat {
    Count(from, to, CountedAt(rows, from, key))
  }

  // ---------------------------------------------------------------------------------------
  // The query computes the meaning.
  // ---------------------------------------------------------------------------------------

  /** Who owns t when a later row is at or before t: not the first row. */
  lemma CountedLater(rows: seq<Row>, from: int, t: int, key: Key)
    requires |rows| > 1 && rows[1].hb.ts <= t
    ensures Counted(rows, from, t, key) == Counted(rows[1..], from, t, key)
  {
    var rest := rows[1..];
    if Counted(rows, from, t, key) {
      var i :| Owns(rows, from, t, i) && t - rows[i].hb.ts < MAX_HEARTBEAT_GAP && key(rows[i].hb.seen);
      assert i != 0;
      assert Owns(rest, from, t, i - 1);
    }
    if Counted(rest, from, t, key) {
      var i :| Owns(rest, from, t, i) && t - rest[i].hb.ts < MAX_HEARTBEAT_GAP && key(rest[i].hb.seen);
      forall j | i + 1 < j < |rows| ensures t < rows[j].hb.ts { assert rows[j] == rest[j - 1]; }
      assert Owns(rows, from, t, i + 1);
    }
  }

  ghost predicate Covers(row: Row, from: int, t: int, key: Key) {
    from <= row.hb.ts <= t && t - row.hb.ts < MAX_HEARTBEAT_GAP && key(row.hb.seen)
  }

  /** Who owns t when every later row is after t: the first row, if anyone. */
  lemma CountedFirst(rows: seq<Row>, from: int, t: int, key: Key)
    requires rows != [] && forall r :: r in rows[1..] ==> t < r.hb.ts
    ensures Counted(rows, from, t, key) <==> Covers(rows[0], from, t, key)
  {
    forall j | 0 < j < |rows| ensures t < rows[j].hb.ts { assert rows[j] in rows[1..]; }
    if Covers(rows[0], from, t, key) {
      assert Owns(rows, from, t, 0);
    }
  }

  lemma CountedSorted(rows: seq<Row>, from: int, t: int, key: Key)
    requires rows != [] && Sorted(rows)
    ensures Counted(rows, from, t, key) ==
            if |rows| > 1 && rows[1].hb.ts <= t then Counted(rows[1..], from, t, key)
            else Covers(rows[0], from, t, key)
  {
    if |rows| > 1 && rows[1].hb.ts <= t {
      CountedLater(rows, from, t, key);
    } else {
      CountedFirst(rows, from, t, key);
    }
  }

  lemma {:induction false} OfDeviceOrdered(rows: seq<Row>, device: string)
    requires OrderedPerDevice(rows)
    ensures Sorted(OfDevice(rows, device))
    ensures forall r :: r in OfDevice(rows, device) <==> r in rows && r.device == device
  {
    if rows != [] {
      OfDeviceOrdered(rows[1..], device);
    }
  }

  lemma {:induction false} RngOfDevice(rows: seq<Row>, device: string, from: int, to: int)
    requires device != ""
    ensures Rng(rows, device, from, to) == Rng(OfDevice(rows, device), "", from, to)
  {
    if rows != [] {
      RngOfDevice(rows[1..], device, from, to);
      if rows[0].device == device {
        assert OfDevice(rows, device)[1..] == OfDevice(rows[1..], device);
      }
    }
  }

  lemma {:induction false} RngMembers(rows: seq<Row>, deviceID: string, from: int, to: int)
    ensures Sorted(rows) ==> Sorted(Rng(rows, deviceID, from, to))
    ensures forall r :: r in Rng(rows, deviceID, from, to) <==>
              r in rows && from <= r.hb.ts < to && (deviceID == "" || r.device == deviceID)
  {
    if rows != [] {
      RngMembers(rows[1..], deviceID, from, to);
    }
  }

  lemma {:induction false} RngOfEmptyWindow(rows: seq<Row>, from: int, to: int)
    requires to <= from
    ensures Rng(rows, "", from, to) == []
  {
    if rows != [] {
      RngOfEmptyWindow(rows[1..], from, to);
    }
  }

  /** Owning a second of the window is the same in the window's rows and in all rows. */
  lemma {:induction false} RngCounted(rows: seq<Row>, from: int, to: int, t: int, key: Key)
    requires Sorted(rows) && from <= t < to
    ensures Counted(Rng(rows, "", from, to), from, t, key) == Counted(rows, from, t, key)
  {
    if rows != [] {
      var row, rest := rows[0], rows[1..];
      var kept := Rng(rest, "", from, to);
      RngMembers(rest, "", from, to);
      RngCounted(rest, from, to, t, key);
      CountedSorted(rows, from, t, key);
      if rest != [] && rest[0].hb.ts <= t {
        if from <= row.hb.ts {
          assert rest[0] in kept && kept[0] in rest;
          CountedLater([row] + kept, from, t, key);
          assert ([row] + kept)[1..] == kept;
        }
      } else {
        assert forall r :: r in rest ==> t < r.hb.ts;
        assert forall r :: r in kept ==> t < r.hb.ts;
        assert ([row] + kept)[1..] == kept;
        CountedFirst([row] + kept, from, t, key);
      }
    }
  }

  ghost predicate OneDevice(rows: seq<Row>, device: string) {
    forall r :: r in rows ==> r.device == device
  }

  lemma {:induction false} OwnRows(rows: seq<Row>, device: string)
    requires OneDevice(rows, device)
    ensures OfDevice(rows, device) == rows
  {
    if rows != [] {
      assert rows[0] in rows && forall r :: r in rows[1..] ==> r in rows;
      OwnRows(rows[1..], device);
    }
  }

  lemma {:induction false} SortedAt(rows: seq<Row>, i: nat, j: nat)
    requires Sorted(rows) && i <= j < |rows|
    ensures rows[i].hb.ts <= rows[j].hb.ts
  {
    if i == 0 {
      assert j > 0 ==> rows[j] in rows[1..];
    } else {
      SortedAt(rows[1..], i - 1, j - 1);
    }
  }

  lemma {:induction false} SortedIsOrdered(rows: seq<Row>)
    requires Sorted(rows)
    ensures OrderedPerDevice(rows)
  {
    forall i, j | 0 <= i < j < |rows| ensures rows[i].hb.ts <= rows[j].hb.ts {
      SortedAt(rows, i, j);
    }
  }

  /** The seconds from a row up to its successor. */
  lemma FirstGapCounts(rows: seq<Row>, device: string, to: int, key: Key)
    requires rows != [] && Sorted(rows) && OneDevice(rows, device)
    requires forall r :: r in rows ==> r.hb.ts < to
    ensures var next := LeadTs(rows[1..], device, to);
            var f := CountedAt(rows, rows[0].hb.ts, key);
            && rows[0].hb.ts <= next <= to
            && Count(rows[0].hb.ts, next, f) == if key(rows[0].hb.seen) then Secs(rows[0], rows[1..], to) else 0
  {
    var row, next := rows[0], LeadTs(rows[1..], device, to);
    var f := CountedAt(rows, row.hb.ts, key);
    if |rows| > 1 {
      assert rows[1] == rows[1..][0] && rows[1] in rows[1..];
    }
    assert next == if |rows| > 1 then rows[1].hb.ts else to;
    assert row in rows;
    forall t | row.hb.ts <= t < next ensures f(t) <==> Covers(row, row.hb.ts, t, key) {
      CountedSorted(rows, row.hb.ts, t, key);
    }
    CountPrefix(row.hb.ts, row.hb.ts + if key(row.hb.seen) then Secs(row, rows[1..], to) else 0, next, f);
  }

  /** The gap sum of one device's window rows is a count of seconds. */
  lemma {:induction false} SumSecsCounts(rows: seq<Row>, device: string, from: int, to: int, key: Key)
    requires Sorted(rows) && OneDevice(rows, device) && from <= to
    requires forall r :: r in rows ==> from <= r.hb.ts < to
    ensures SumSecs(rows, to, key) == PerSecond(rows, from, to, key)
    decreases |rows|
  {
    var f := CountedAt(rows, from, key);
    if rows == [] {
      CountPrefix(from, from, to, f);
    } else {
      var row, rest := rows[0], rows[1..];
      var next := LeadTs(rest, device, to);
      assert row in rows && forall r :: r in rest ==> r in rows;
      FirstGapCounts(rows, device, to, key);
      forall t | from <= t < row.hb.ts ensures !f(t) {
        CountedFirst(rows, from, t, key);
      }
      CountSplit(from, row.hb.ts, to, f);
      CountSplit(row.hb.ts, next, to, f);
      CountPrefix(from, from, row.hb.ts, f);
      LaterStart(rows, from, row.hb.ts, next, key);
      SumSecsCounts(rest, device, next, to, key);
      forall t | next <= t < to ensures f(t) == CountedAt(rest, next, key)(t) {
        CountedLater(rows, from, t, key);
        SameOwners(rest, from, next, t, key);
      }
      CountSame(next, to, f, CountedAt(rest, next, key));
    }
  }

  /** Where the window starts does not matter when no row is before either start. */
  lemma SameOwners(rows: seq<Row>, from: int, later: int, t: int, key: Key)
    requires forall r :: r in rows ==> from <= r.hb.ts && later <= r.hb.ts
    ensures Counted(rows, from, t, key) == Counted(rows, later, t, key)
  {
    forall i ensures Owns(rows, from, t, i) == Owns(rows, later, t, i) { }
  }

  lemma LaterStart(rows: seq<Row>, from: int, start: int, end: int, key: Key)
    requires forall r :: r in rows ==> from <= r.hb.ts && start <= r.hb.ts
    ensures Count(start, end, CountedAt(rows, from, key)) == Count(start, end, CountedAt(rows, start, key))
  {
    forall t ensures CountedAt(rows, from, key)(t) == CountedAt(rows, start, key)(t) {
      SameOwners(rows, from, start, t, key);
    }
    CountSame(start, end, CountedAt(rows, from, key), CountedAt(rows, start, key));
  }

  /** MAIN: for one device the SQL sum is the number of seconds of the window whose last
      heartbeat in the window at or before them is fresh and selected. */
  lemma {:induction false} DwellIsPerSecond(rows: seq<Row>, device: string, from: int, to: int, key: Key)
    requires OrderedPerDevice(rows) && device != ""
    ensures DwellSeconds(rows, device, from, to, key) == PerSecond(OfDevice(rows, device), from, to, key)
  {
    OfDeviceOrdered(rows, device);
    RngOfDevice(rows, device, from, to);
    DwellOfSorted(OfDevice(rows, device), device, from, to, key);
  }

  lemma {:induction false} DwellOfSorted(rows: seq<Row>, device: string, from: int, to: int, key: Key)
    requires Sorted(rows) && OneDevice(rows, device)
    ensures DwellSeconds(rows, "", from, to, key) == PerSecond(rows, from, to, key)
  {
    var window := Rng(rows, "", from, to);
    RngMembers(rows, "", from, to);
    if from <= to {
      SumSecsCounts(window, device, from, to, key);
      forall t | from <= t < to ensures CountedAt(window, from, key)(t) == CountedAt(rows, from, key)(t) {
        RngCounted(rows, from, to, t, key);
      }
      CountSame(from, to, CountedAt(window, from, key), CountedAt(rows, from, key));
    } else {
      RngOfEmptyWindow(rows, from, to);
    }
  }
}
