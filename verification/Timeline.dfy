/** The dashboard's hourly timeline, a second implementation of the dwell model
    (internal/server/web/app.js, bucketByHour), against the server's. */
module Timeline {
  import opened Common
  import opened Protocol
  import opened Counting
  import opened Dwell
  import opened DwellLaws

  /** ListEvents' clamp on the number of rows it returns. */
  function ClampLimit(limit: int): int {
    if limit <= 0 then 1000 else if limit > 10000 then 10000 else limit
  }

  /** The limit the dashboard asks for. */
  const EVENT_LIMIT: int := 10000

  /** The rows the page is sent: the first of the window in ORDER BY ts. */
  function Page(rows: seq<Row>, deviceID: string, from: int, to: int, limit: int): seq<Row> {
    Take(Rng(rows, deviceID, from, to), ClampLimit(limit))
  }

  /** ListEvents: the same without their device. */
  function ListEvents(rows: seq<Row>, deviceID: string, from: int, to: int, limit: int): seq<Heartbeat> {
    Events(Page(rows, deviceID, from, to, limit))
  }

  function Events(rows: seq<Row>): seq<Heartbeat> {
    if rows == [] then [] else [rows[0].hb] + Events(rows[1..])
  }

  /** The hour a second falls in, by its first second. */
  function HourKey(ts: int): (hour: int)
    ensures InsideHour(hour, ts)
  {
    ts / 3600 * 3600
  }

  predicate InsideHour(hour: int, ts: int) { hour % 3600 == 0 && hour <= ts < hour + 3600 }

  lemma OneHour(hour: int, ts: int)
    ensures InsideHour(hour, ts) <==> hour == HourKey(ts)
  {
  }

  /** The gap charged to the first of the remaining events. */
  function Gap(events: seq<Heartbeat>, to: int): (gap: int)
    requires events != []
    ensures 0 <= gap <= 30
  {
    var until := (if |events| > 1 then events[1].ts else to) - events[0].ts;
    var capped := if until < MAX_HEARTBEAT_GAP then until else MAX_HEARTBEAT_GAP;
    if capped < 0 then 0 else capped
  }

  type Pick = Heartbeat -> bool

  function GapSum(events: seq<Heartbeat>, to: int, pick: Pick): int {
    if events == [] then 0
    else (if pick(events[0]) then Gap(events, to) else 0) + GapSum(events[1..], to, pick)
  }

  function Sees(key: Key): Pick { (e: Heartbeat) => key(e.seen) }

  function InHour(hour: int, pick: Pick): Pick { (e: Heartbeat) => InsideHour(hour, e.ts) && pick(e) }

  datatype HourBucket = HourBucket(active: int, idle: int)

  /** One bucket per hour that has an event, each with the active and the idle gaps of its events. */
  ghost predicate IsTimeline(buckets: map<int, HourBucket>, events: seq<Heartbeat>, to: int) {
    && (forall hour :: hour in buckets <==> exists e :: e in events && InsideHour(hour, e.ts))
    && (forall hour :: hour in buckets ==>
          && buckets[hour].active == GapSum(events, to, InHour(hour, Sees(IsActive())))
          && buckets[hour].idle == GapSum(events, to, InHour(hour, Sees(IsIdle()))))
  }

  function BucketAt(buckets: map<int, HourBucket>, hour: int): HourBucket {
    if hour in buckets then buckets[hour] else HourBucket(0, 0)
  }

  /** What is in the bucket and what the remaining events will add make up the whole. */
  ghost predicate Accounted(buckets: map<int, HourBucket>, rest: seq<Heartbeat>, events: seq<Heartbeat>, to: int,
                            hour: int) {
    var active, idle := InHour(hour, Sees(IsActive())), InHour(hour, Sees(IsIdle()));
    && BucketAt(buckets, hour).active + GapSum(rest, to, active) == GapSum(events, to, active)
    && BucketAt(buckets, hour).idle + GapSum(rest, to, idle) == GapSum(events, to, idle)
  }

  /** The bucket an event's gap is added to. */
  function Charged(b: HourBucket, ev: Heartbeat, gap: int): HourBucket {
    if ev.seen.active then b.(active := b.active + gap) else b.(idle := b.idle + gap)
  }

  lemma AccountOne(buckets: map<int, HourBucket>, ev: Heartbeat, rest: seq<Heartbeat>, events: seq<Heartbeat>,
                   to: int, hour: int)
    requires Accounted(buckets, [ev] + rest, events, to, hour)
    ensures var key := HourKey(ev.ts);
            Accounted(buckets[key := Charged(BucketAt(buckets, key), ev, Gap([ev] + rest, to))], rest, events, to, hour)
  {
    assert ([ev] + rest)[1..] == rest;
    OneHour(hour, ev.ts);
    hide InsideHour, HourKey;
  }

  ghost predicate HoursSeen(buckets: map<int, HourBucket>, seen: seq<Heartbeat>) {
    forall hour :: hour in buckets <==> exists e :: e in seen && InsideHour(hour, e.ts)
  }

  ghost predicate AllAccounted(buckets: map<int, HourBucket>, rest: seq<Heartbeat>, events: seq<Heartbeat>, to: int) {
    forall hour :: Accounted(buckets, rest, events, to, hour)
  }

  /** One turn of the loop. */
  lemma Charge(buckets: map<int, HourBucket>, seen: seq<Heartbeat>, ev: Heartbeat, rest: seq<Heartbeat>,
               events: seq<Heartbeat>, to: int)
    requires HoursSeen(buckets, seen) && AllAccounted(buckets, [ev] + rest, events, to)
    ensures var key := HourKey(ev.ts);
            var after := buckets[key := Charged(BucketAt(buckets, key), ev, Gap([ev] + rest, to))];
            HoursSeen(after, seen + [ev]) && AllAccounted(after, rest, events, to)
  {
    var key := HourKey(ev.ts);
    var after := buckets[key := Charged(BucketAt(buckets, key), ev, Gap([ev] + rest, to))];
    forall hour ensures Accounted(after, rest, events, to, hour) {
      AccountOne(buckets, ev, rest, events, to, hour);
    }
    SeeOne(buckets, seen, ev, after[key]);
  }

  lemma SeeOne(buckets: map<int, HourBucket>, seen: seq<Heartbeat>, ev: Heartbeat, b: HourBucket)
    requires HoursSeen(buckets, seen)
    ensures HoursSeen(buckets[HourKey(ev.ts) := b], seen + [ev])
  {
    forall hour ensures InsideHour(hour, ev.ts) <==> hour == HourKey(ev.ts) {
      OneHour(hour, ev.ts);
    }
    hide InsideHour, HourKey;
    assert ev in seen + [ev] && forall e :: e in seen + [ev] <==> e in seen || e == ev;
  }

  lemma AllCharged(buckets: map<int, HourBucket>, events: seq<Heartbeat>, to: int)
    requires HoursSeen(buckets, events) && AllAccounted(buckets, [], events, to)
    ensures IsTimeline(buckets, events, to)
  {
    forall hour | hour in buckets
      ensures buckets[hour].active == GapSum(events, to, InHour(hour, Sees(IsActive())))
      ensures buckets[hour].idle == GapSum(events, to, InHour(hour, Sees(IsIdle())))
    {
      assert Accounted(buckets, [], events, to, hour);
    }
  }

  lemma NoneCharged(events: seq<Heartbeat>, to: int)
    ensures HoursSeen(map[], []) && AllAccounted(map[], events, events, to)
  {
  }

  method BucketByHour(events: seq<Heartbeat>, to: int) returns (buckets: map<int, HourBucket>)
    ensures IsTimeline(buckets, events, to)
  {
    buckets := map[];
    NoneCharged(events, to);
    hide HoursSeen, AllAccounted, HourKey, InsideHour, IsTimeline;
    assert events[..0] == [] && events[0..] == events;
    for i := 0 to |events|
      invariant HoursSeen(buckets, events[..i]) && AllAccounted(buckets, events[i..], events, to)
    {
      var ev := events[i];
      var gap;
      if i + 1 < |events| {
        gap := if events[i + 1].ts - ev.ts < MAX_HEARTBEAT_GAP then events[i + 1].ts - ev.ts else MAX_HEARTBEAT_GAP;
      } else {
        gap := if to - ev.ts < MAX_HEARTBEAT_GAP then to - ev.ts else MAX_HEARTBEAT_GAP;
      }
      if gap < 0 { gap := 0; }
      var key := HourKey(ev.ts);
      var b := if key in buckets then buckets[key] else HourBucket(0, 0);
      ghost var rest := events[i + 1..];
      assert events[i..] == [ev] + rest && gap == Gap([ev] + rest, to);
      assert events[..i + 1] == events[..i] + [ev];
      Charge(buckets, events[..i], ev, rest, events, to);
      buckets := buckets[key := Charged(b, ev, gap)];
    }
    assert events[..|events|] == events && events[|events|..] == [];
    AllCharged(buckets, events, to);
  }

  // ---------------------------------------------------------------------------------------
  // Hours add up to the whole.
  // ---------------------------------------------------------------------------------------

  function PerHour(events: seq<Heartbeat>, to: int, pick: Pick): int -> int {
    (hour: int) => GapSum(events, to, InHour(hour, pick))
  }

  lemma {:induction false} HoursPartition(events: seq<Heartbeat>, to: int, pick: Pick, hours: seq<int>)
    requires Distinct(hours) && forall e :: e in events ==> HourKey(e.ts) in hours
    ensures SumOver(hours, PerHour(events, to, pick)) == GapSum(events, to, pick)
  {
    if events == [] {
      SumOverZero(hours, PerHour(events, to, pick));
    } else {
      var e := events[0];
      assert e in events && forall x :: x in events[1..] ==> x in events;
      HoursPartition(events[1..], to, pick, hours);
      forall hour ensures InsideHour(hour, e.ts) <==> hour == HourKey(e.ts) {
        OneHour(hour, e.ts);
      }
      hide InsideHour, HourKey;
      SumOverRaised(hours, PerHour(events[1..], to, pick), PerHour(events, to, pick), HourKey(e.ts),
                    if pick(e) then Gap(events, to) else 0);
    }
  }

  /** The loop sees one stream: the rows as though they came from a single device. */
  function AsOne(rows: seq<Row>): seq<Row> {
    if rows == [] then [] else [Row("all", rows[0].hb)] + AsOne(rows[1..])
  }

  lemma {:induction false} AsOneRows(rows: seq<Row>)
    requires Sorted(rows)
    ensures |AsOne(rows)| == |rows| && Sorted(AsOne(rows)) && OneDevice(AsOne(rows), "all")
    ensures forall r :: r in AsOne(rows) ==> exists q :: q in rows && q.hb == r.hb
    ensures forall q :: q in rows ==> Row("all", q.hb) in AsOne(rows)
  {
    if rows != [] {
      AsOneRows(rows[1..]);
      assert AsOne(rows)[1..] == AsOne(rows[1..]);
      forall r | r in AsOne(rows) ensures exists q :: q in rows && q.hb == r.hb {
        if r in AsOne(rows[1..]) {
          var q :| q in rows[1..] && q.hb == r.hb;
          assert q in rows;
        } else {
          assert rows[0] in rows && rows[0].hb == r.hb;
        }
      }
    }
  }

  /** The page's loop is the server's gap sum with the partition by device left out. */
  lemma {:induction false} GapSumIsSumSecs(rows: seq<Row>, to: int, key: Key)
    requires Sorted(rows) && forall r :: r in rows ==> r.hb.ts < to
    ensures GapSum(Events(rows), to, Sees(key)) == SumSecs(AsOne(rows), to, key)
  {
    if rows != [] {
      var rest := rows[1..];
      assert rows[0] in rows && forall r :: r in rest ==> r in rows;
      GapSumIsSumSecs(rest, to, key);
      assert Events(rows)[1..] == Events(rest) && AsOne(rows)[1..] == AsOne(rest);
      if rest == [] {
        assert |Events(rows)| == 1;
      } else {
        assert Events(rows)[1] == Events(rest)[0] == rest[0].hb;
        assert LeadTs(AsOne(rest), "all", to) == rest[0].hb.ts;
        assert rest[0] in rest;
      }
      assert Gap(Events(rows), to) == Secs(AsOne(rows)[0], AsOne(rest), to);
    }
  }

  lemma {:induction false} AsOneOfOneDevice(rows: seq<Row>, device: string, to: int, key: Key)
    requires OneDevice(rows, device)
    ensures SumSecs(AsOne(rows), to, key) == SumSecs(rows, to, key)
  {
    if rows != [] {
      var rest := rows[1..];
      assert rows[0] in rows && forall r :: r in rest ==> r in rows;
      AsOneOfOneDevice(rest, device, to, key);
      assert AsOne(rows)[1..] == AsOne(rest);
      if rest != [] {
        assert rest[0] in rest && AsOne(rest)[0] == Row("all", rest[0].hb);
      }
    }
  }

  /** What renderHourly adds up: one field of every bucket. */
  function Actives(buckets: map<int, HourBucket>): int -> int {
    (hour: int) => if hour in buckets then buckets[hour].active else 0
  }

  function Idles(buckets: map<int, HourBucket>): int -> int {
    (hour: int) => if hour in buckets then buckets[hour].idle else 0
  }

  /** The hours shown: Object.keys(buckets), in any order. */
  ghost predicate AreKeys(hours: seq<int>, buckets: map<int, HourBucket>) {
    Distinct(hours) && forall hour :: hour in hours <==> hour in buckets
  }

  lemma BucketsAddUp(buckets: map<int, HourBucket>, hours: seq<int>, events: seq<Heartbeat>, to: int)
    requires IsTimeline(buckets, events, to) && AreKeys(hours, buckets)
    ensures SumOver(hours, Actives(buckets)) == GapSum(events, to, Sees(IsActive()))
    ensures SumOver(hours, Idles(buckets)) == GapSum(events, to, Sees(IsIdle()))
  {
    hide GapSum, SumOver, HourKey, InsideHour, Distinct;
    forall e | e in events ensures HourKey(e.ts) in hours { }
    HoursPartition(events, to, Sees(IsActive()), hours);
    HoursPartition(events, to, Sees(IsIdle()), hours);
    forall hour | hour in hours
      ensures Actives(buckets)(hour) == PerHour(events, to, Sees(IsActive()))(hour)
      ensures Idles(buckets)(hour) == PerHour(events, to, Sees(IsIdle()))(hour) { }
    hide IsTimeline;
    SumOverSame(hours, Actives(buckets), PerHour(events, to, Sees(IsActive())));
    SumOverSame(hours, Idles(buckets), PerHour(events, to, Sees(IsIdle())));
  }

  /** MAIN: for one device the hours of the timeline add up to the server's active and idle
      seconds, whenever the page got every event. */
  lemma {:induction false} TimelineAgreesWithServer(rows: seq<Row>, device: string, from: int, to: int,
                                 buckets: map<int, HourBucket>, hours: seq<int>)
    requires Sorted(rows) && device != "" && |Rng(rows, device, from, to)| <= EVENT_LIMIT
    requires IsTimeline(buckets, ListEvents(rows, device, from, to, EVENT_LIMIT), to) && AreKeys(hours, buckets)
    ensures SumOver(hours, Actives(buckets)) == ActiveSeconds(rows, device, from, to)
    ensures SumOver(hours, Idles(buckets)) == IdleSeconds(rows, device, from, to)
  {
    var window := Rng(rows, device, from, to);
    RngMembers(rows, device, from, to);
    BucketsAddUp(buckets, hours, Events(window), to);
    GapSumIsSumSecs(window, to, IsActive());
    GapSumIsSumSecs(window, to, IsIdle());
    AsOneOfOneDevice(window, device, to, IsActive());
    AsOneOfOneDevice(window, device, to, IsIdle());
  }

  // ---------------------------------------------------------------------------------------
  // One hour.
  // ---------------------------------------------------------------------------------------

  ghost predicate InOrder(events: seq<Heartbeat>) {
    forall i :: 0 <= i < |events| - 1 ==> events[i].ts <= events[i + 1].ts
  }

  /** The events of an hour can be charged its seconds from the first of them on, and 29 more. */
  lemma {:induction false} HourSpan(events: seq<Heartbeat>, to: int, hour: int, pick: Pick)
    requires InOrder(events) && hour % 3600 == 0
    ensures GapSum(events, to, InHour(hour, pick)) <=
            if events == [] || hour + 3600 <= events[0].ts then 0
            else if events[0].ts < hour then 3629 else hour + 3629 - events[0].ts
  {
    if events != [] {
      var rest := events[1..];
      forall i | 0 <= i < |rest| - 1 ensures rest[i].ts <= rest[i + 1].ts {
        assert events[i + 1].ts <= events[i + 1 + 1].ts;
      }
      HourSpan(rest, to, hour, pick);
      assert |events| > 1 ==> events[0].ts <= events[0 + 1].ts && rest[0] == events[1];
      assert HourKey(events[0].ts) == hour <==> hour <= events[0].ts < hour + 3600;
    }
  }

  lemma {:induction false} GapSumSplit(events: seq<Heartbeat>, to: int, a: Pick, b: Pick, c: Pick)
    requires forall e :: c(e) <==> a(e) || b(e)
    requires forall e :: !(a(e) && b(e))
    ensures GapSum(events, to, a) + GapSum(events, to, b) == GapSum(events, to, c)
  {
    if events != [] {
      GapSumSplit(events[1..], to, a, b, c);
    }
  }

  lemma {:induction false} HourAtMost3629(events: seq<Heartbeat>, to: int, hour: int)
    requires InOrder(events) && hour % 3600 == 0
    ensures GapSum(events, to, InHour(hour, Sees(Anything()))) <= 3629
  {
    HourSpan(events, to, hour, Sees(Anything()));
  }

  lemma {:induction false} HourSplit(events: seq<Heartbeat>, to: int, hour: int)
    ensures GapSum(events, to, InHour(hour, Sees(IsActive()))) + GapSum(events, to, InHour(hour, Sees(IsIdle())))
            == GapSum(events, to, InHour(hour, Sees(Anything())))
  {
    var active, idle := InHour(hour, Sees(IsActive())), InHour(hour, Sees(IsIdle()));
    assert forall e :: InHour(hour, Sees(Anything()))(e) <==> active(e) || idle(e);
    GapSumSplit(events, to, active, idle, InHour(hour, Sees(Anything())));
  }

  lemma {:induction false} ShownHour(buckets: map<int, HourBucket>, events: seq<Heartbeat>, to: int, hour: int)
    requires IsTimeline(buckets, events, to) && hour in buckets
    ensures hour % 3600 == 0
    ensures buckets[hour].active == GapSum(events, to, InHour(hour, Sees(IsActive())))
    ensures buckets[hour].idle == GapSum(events, to, InHour(hour, Sees(IsIdle())))
  {
    var e :| e in events && InsideHour(hour, e.ts);
  }

  /** No hour of the timeline shows more than 3629 s, for a device or for the fleet. */
  lemma {:induction false} NoHourExceeds3629(buckets: map<int, HourBucket>, events: seq<Heartbeat>, to: int, hour: int)
    requires IsTimeline(buckets, events, to) && InOrder(events) && hour in buckets
    ensures buckets[hour].active + buckets[hour].idle <= 3629
  {
    ShownHour(buckets, events, to, hour);
    hide IsTimeline, GapSum, InOrder;
    HourSplit(events, to, hour);
    HourAtMost3629(events, to, hour);
  }

  // ---------------------------------------------------------------------------------------
  // The whole fleet on one timeline.
  // ---------------------------------------------------------------------------------------

  function TimelineTotal(rows: seq<Row>, to: int): int {
    GapSum(Events(rows), to, Sees(Anything()))
  }

  /** What the bars add up to. */
  function Shown(buckets: map<int, HourBucket>, hours: seq<int>): int {
    SumOver(hours, Actives(buckets)) + SumOver(hours, Idles(buckets))
  }

  lemma {:induction false} ShownIsTotal(buckets: map<int, HourBucket>, hours: seq<int>, rows: seq<Row>, to: int)
    requires IsTimeline(buckets, Events(rows), to) && AreKeys(hours, buckets)
    ensures Shown(buckets, hours) == TimelineTotal(rows, to)
  {
    BucketsAddUp(buckets, hours, Events(rows), to);
    GapSumSplit(Events(rows), to, Sees(IsActive()), Sees(IsIdle()), Sees(Anything()));
  }

  lemma {:induction false} GapsAreUnion(rows: seq<Row>, from: int, to: int)
    requires Sorted(rows) && forall r :: r in rows ==> from <= r.hb.ts < to
    ensures TimelineTotal(rows, to) == Count(from, to, AliveAt(rows, from))
  {
    var one := AsOne(rows);
    AsOneRows(rows);
    GapSumIsSumSecs(rows, to, Anything());
    if rows == [] {
      CountZero(from, to, AliveAt(rows, from));
    } else {
      assert rows[0] in rows;
      SumSecsCounts(one, "all", from, to, Anything());
      forall t ensures CountedAt(one, from, Anything())(t) == AliveAt(rows, from)(t) {
        AnyOwnerIsAlive(one, from, t);
        if Alive(rows, from, t) {
          var q :| q in rows && from <= q.hb.ts <= t < q.hb.ts + MAX_HEARTBEAT_GAP;
          assert Row("all", q.hb) in one;
        }
      }
      CountSame(from, to, CountedAt(one, from, Anything()), AliveAt(rows, from));
    }
  }

  lemma {:induction false} PageRows(rows: seq<Row>, deviceID: string, from: int, to: int, limit: int)
    requires Sorted(rows)
    ensures var page := Page(rows, deviceID, from, to, limit);
            && Sorted(page)
            && forall r :: r in page ==> r in Rng(rows, deviceID, from, to) && from <= r.hb.ts < to
  {
    RngMembers(rows, deviceID, from, to);
    TakeSorted(Rng(rows, deviceID, from, to), ClampLimit(limit));
  }

  /** The hours show every second in which any event the page was sent is fresh, once. */
  lemma {:induction false} TimelineIsUnion(rows: seq<Row>, deviceID: string, from: int, to: int, limit: int,
                                           buckets: map<int, HourBucket>, hours: seq<int>)
    requires Sorted(rows) && AreKeys(hours, buckets)
    requires IsTimeline(buckets, ListEvents(rows, deviceID, from, to, limit), to)
    ensures Shown(buckets, hours) == Count(from, to, AliveAt(Page(rows, deviceID, from, to, limit), from))
  {
    var page := Page(rows, deviceID, from, to, limit);
    PageRows(rows, deviceID, from, to, limit);
    ShownIsTotal(buckets, hours, page, to);
    GapsAreUnion(page, from, to);
  }

  lemma {:induction false} PageAtMostWindow(rows: seq<Row>, deviceID: string, from: int, to: int, limit: int)
    requires Sorted(rows)
    ensures TimelineTotal(Page(rows, deviceID, from, to, limit), to) <= TimelineTotal(Rng(rows, deviceID, from, to), to)
  {
    var window, page := Rng(rows, deviceID, from, to), Page(rows, deviceID, from, to, limit);
    RngMembers(rows, deviceID, from, to);
    PageRows(rows, deviceID, from, to, limit);
    GapsAreUnion(window, from, to);
    GapsAreUnion(page, from, to);
    forall t ensures AliveAt(page, from)(t) ==> AliveAt(window, from)(t) { }
    CountGrows(from, to, AliveAt(page, from), AliveAt(window, from), from, to);
  }

  /** Dropping later events (the event limit) never raises what is shown. */
  lemma {:induction false} TruncationNeverRaises(rows: seq<Row>, deviceID: string, from: int, to: int, limit: int,
                                                 some: map<int, HourBucket>, someHours: seq<int>,
                                                 all: map<int, HourBucket>, allHours: seq<int>)
    requires Sorted(rows) && AreKeys(someHours, some) && AreKeys(allHours, all)
    requires IsTimeline(some, ListEvents(rows, deviceID, from, to, limit), to)
    requires IsTimeline(all, Events(Rng(rows, deviceID, from, to)), to)
    ensures Shown(some, someHours) <= Shown(all, allHours)
  {
    ShownIsTotal(some, someHours, Page(rows, deviceID, from, to, limit), to);
    ShownIsTotal(all, allHours, Rng(rows, deviceID, from, to), to);
    PageAtMostWindow(rows, deviceID, from, to, limit);
  }

  lemma {:induction false} TakeSorted(rows: seq<Row>, n: nat)
    requires Sorted(rows)
    ensures Sorted(Take(rows, n)) && forall r :: r in Take(rows, n) ==> r in rows
  {
    if rows != [] && 0 < n < |rows| {
      TakeSorted(rows[1..], n - 1);
      assert rows[..n][1..] == rows[1..][..n - 1];
    }
  }

  ghost function DeviceAlive(window: seq<Row>, devices: seq<string>, from: int): int -> bool {
    t => exists d :: d in devices && Alive(OfDevice(window, d), from, t)
  }

  lemma {:induction false} UnionOverDevices(window: seq<Row>, devices: seq<string>, from: int, to: int,
                                            f: string -> int)
    requires forall d :: d in devices ==> f(d) == Count(from, to, AliveAt(OfDevice(window, d), from))
    ensures Count(from, to, DeviceAlive(window, devices, from)) <= SumOver(devices, f)
  {
    if devices == [] {
      CountZero(from, to, DeviceAlive(window, devices, from));
    } else {
      UnionOverDevices(window, devices[1..], from, to, f);
      CountUnion(from, to, AliveAt(OfDevice(window, devices[0]), from), DeviceAlive(window, devices[1..], from),
                 DeviceAlive(window, devices, from));
    }
  }

  lemma DeviceTotalInWindow(rows: seq<Row>, device: string, from: int, to: int)
    requires Sorted(rows) && device != "" && from <= to
    ensures DwellSeconds(rows, device, from, to, Anything())
            == Count(from, to, AliveAt(OfDevice(Rng(rows, "", from, to), device), from))
  {
    var own := Rng(rows, device, from, to);
    RngThenDevice(rows, device, from, to);
    RngMembers(rows, device, from, to);
    SumSecsCounts(own, device, from, to, Anything());
    forall t ensures CountedAt(own, from, Anything())(t) == AliveAt(own, from)(t) {
      AnyOwnerIsAlive(own, from, t);
    }
    CountSame(from, to, CountedAt(own, from, Anything()), AliveAt(own, from));
  }

  lemma DeviceAtMostTimeline(rows: seq<Row>, device: string, from: int, to: int)
    requires Sorted(rows) && from <= to && device != ""
    ensures DwellSeconds(rows, device, from, to, Anything())
            == Count(from, to, AliveAt(OfDevice(Rng(rows, "", from, to), device), from))
            <= TimelineTotal(Rng(rows, "", from, to), to)
  {
    var window := Rng(rows, "", from, to);
    RngMembers(rows, "", from, to);
    GapsAreUnion(window, from, to);
    DeviceTotalInWindow(rows, device, from, to);
    SortedIsOrdered(window);
    OfDeviceOrdered(window, device);
    CountGrows(from, to, AliveAt(OfDevice(window, device), from), AliveAt(window, from), from, to);
  }

  lemma TimelineAtMostDevices(window: seq<Row>, devices: seq<string>, from: int, to: int)
    requires Sorted(window) && forall r :: r in window ==> from <= r.hb.ts < to && r.device in devices
    ensures TimelineTotal(window, to) <= Count(from, to, DeviceAlive(window, devices, from))
  {
    GapsAreUnion(window, from, to);
    SortedIsOrdered(window);
    forall t ensures AliveAt(window, from)(t) ==> DeviceAlive(window, devices, from)(t) {
      if Alive(window, from, t) {
        var r :| r in window && from <= r.hb.ts <= t < r.hb.ts + MAX_HEARTBEAT_GAP;
        OfDeviceOrdered(window, r.device);
        assert r in OfDevice(window, r.device);
      }
    }
    CountGrows(from, to, AliveAt(window, from), DeviceAlive(window, devices, from), from, to);
  }

  lemma {:induction false} FleetGapsBetween(rows: seq<Row>, devices: seq<string>, from: int, to: int)
    requires Sorted(rows) && from <= to
    requires Distinct(devices) && "" !in devices && forall r :: r in rows ==> r.device in devices
    ensures forall d :: d in devices ==>
              DwellSeconds(rows, d, from, to, Anything()) <= TimelineTotal(Rng(rows, "", from, to), to)
    ensures TimelineTotal(Rng(rows, "", from, to), to) <= DwellSeconds(rows, "", from, to, Anything())
  {
    var window := Rng(rows, "", from, to);
    RngMembers(rows, "", from, to);
    forall d | d in devices
      ensures DwellSeconds(rows, d, from, to, Anything()) <= TimelineTotal(window, to)
      ensures PerDevice(rows, from, to, Anything())(d) == Count(from, to, AliveAt(OfDevice(window, d), from))
    {
      DeviceAtMostTimeline(rows, d, from, to);
    }
    TimelineAtMostDevices(window, devices, from, to);
    UnionOverDevices(window, devices, from, to, PerDevice(rows, from, to, Anything()));
    FleetIsSumOfDevices(rows, devices, from, to, Anything());
  }

  /** MAIN: for the whole fleet the hours add up to no more than the fleet's dwell, truncated or not;
      and, when the page got every event, to no less than any one device's. */
  lemma {:induction false} FleetTimelineBetween(rows: seq<Row>, devices: seq<string>, from: int, to: int,
                                                buckets: map<int, HourBucket>, hours: seq<int>)
    requires Sorted(rows) && from <= to && AreKeys(hours, buckets)
    requires Distinct(devices) && "" !in devices && forall r :: r in rows ==> r.device in devices
    requires IsTimeline(buckets, ListEvents(rows, "", from, to, EVENT_LIMIT), to)
    ensures Shown(buckets, hours) <= DwellSeconds(rows, "", from, to, Anything())
    ensures |Rng(rows, "", from, to)| <= EVENT_LIMIT ==>
              forall d :: d in devices ==> DwellSeconds(rows, d, from, to, Anything()) <= Shown(buckets, hours)
  {
    ShownIsTotal(buckets, hours, Page(rows, "", from, to, EVENT_LIMIT), to);
    PageAtMostWindow(rows, "", from, to, EVENT_LIMIT);
    FleetGapsBetween(rows, devices, from, to);
  }

  /** The page is the first rows of the window: all of them, or as many as the limit asks for, 1000
      when it asks for none and never more than 10000. */
  lemma {:induction false} PageSize(rows: seq<Row>, deviceID: string, from: int, to: int, limit: int)
    ensures var window, page := Rng(rows, deviceID, from, to), Page(rows, deviceID, from, to, limit);
            && page <= window
            && (limit <= 0 ==> |page| == if |window| < 1000 then |window| else 1000)
            && (0 < limit <= 10000 ==> |page| == if |window| < limit then |window| else limit)
            && (limit > 10000 ==> |page| == if |window| < 10000 then |window| else 10000)
  {
  }
}
