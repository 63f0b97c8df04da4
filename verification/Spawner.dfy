/** The watcher respawn ladder (internal/agent/spawn_windows.go). */
module Spawner {
  import opened Common

  /** Clock readings and delays in nanoseconds. */
  const SECOND: int := 1_000_000_000

  const NO_CONSOLE_SESSION: int := 0xFFFF_FFFF

  function Ladder(idx: nat): int {
    if idx == 0 then SECOND else if idx == 1 then 5 * SECOND else 30 * SECOND
  }

  const LADDER_LEN: nat := 3

  /** What one reconcile finds: the console session, the session user's SID when both token calls
      succeed, the clock, whether a watcher is attached, and how a launch would end. */
  datatype World = World(session: int, user: Option<string>, now: int, connected: bool, launches: bool)

  /** nextAttempt None is the zero time: before every clock reading. */
  datatype Backoff = Backoff(nextAttempt: Option<int>, ladderIdx: nat)

  function Consumed(b: Backoff, now: int): Backoff {
    Backoff(Some(now + Ladder(b.ladderIdx)), if b.ladderIdx < LADDER_LEN - 1 then b.ladderIdx + 1 else b.ladderIdx)
  }

  predicate HasSession(w: World) { w.session != 0 && w.session != NO_CONSOLE_SESSION }

  predicate SeesWatcher(w: World) { HasSession(w) && w.user.Some? && w.connected }

  /** A launch is attempted, whether or not it succeeds. */
  predicate Spawns(b: Backoff, w: World) {
    && HasSession(w) && w.user.Some? && !w.connected
    && (b.nextAttempt.Some? ==> b.nextAttempt.value <= w.now)
  }

  predicate UsesLadder(b: Backoff, w: World) {
    HasSession(w) && (w.user.None? || Spawns(b, w))
  }

  function Reconciled(b: Backoff, w: World): Backoff {
    if SeesWatcher(w) then Backoff(None, 0)
    else if UsesLadder(b, w) then Consumed(b, w.now)
    else b
  }

  class Spawner {
    var nextAttempt: Option<int>
    var ladderIdx: nat

    ghost predicate Valid()
      reads this
    {
      ladderIdx < LADDER_LEN
    }

    ghost function State(): Backoff
      reads this
    {
      Backoff(nextAttempt, ladderIdx)
    }

    constructor ()
      ensures Valid() && State() == Backoff(None, 0)
    {
      nextAttempt, ladderIdx := None, 0;
    }

    /** granted is the user EnsureSDDL was called with; error, a failed launch. */
    method Reconcile(w: World) returns (spawned: bool, granted: Option<string>, error: bool)
      requires Valid()
      modifies this
      ensures Valid() && State() == Reconciled(old(State()), w)
      ensures spawned <==> Spawns(old(State()), w)
      ensures granted == if HasSession(w) then w.user else None
      ensures error <==> spawned && !w.launches
    {
      spawned, granted, error := false, None, false;
      if w.session == NO_CONSOLE_SESSION || w.session == 0 {
        return;
      }
      if w.user.None? {
        ConsumeLadder(w.now);
        return;
      }
      granted := w.user;
      if w.connected {
        ladderIdx := 0;
        nextAttempt := None;
        return;
      }
      if nextAttempt.Some? && w.now < nextAttempt.value {
        return;
      }
      spawned, error := true, !w.launches;
      ConsumeLadder(w.now);
    }

    method ConsumeLadder(now: int)
      requires Valid()
      modifies this
      ensures Valid() && State() == Consumed(old(State()), now)
    {
      nextAttempt := Some(now + Ladder(ladderIdx));
      if ladderIdx < LADDER_LEN - 1 {
        ladderIdx := ladderIdx + 1;
      }
    }
  }

  // ---------------------------------------------------------------------------------------
  // Runs.
  // ---------------------------------------------------------------------------------------

  function After(b: Backoff, run: seq<World>): Backoff {
    if run == [] then b else Reconciled(After(b, Front(run)), Last(run))
  }

  /** The clock readings at which a run spawns. */
  function SpawnTimes(b: Backoff, run: seq<World>): seq<int> {
    if run == [] then []
    else SpawnTimes(b, Front(run)) + if Spawns(After(b, Front(run)), Last(run)) then [Last(run).now] else []
  }

  ghost predicate ClockRuns(run: seq<World>) {
    forall i, j :: 0 <= i <= j < |run| ==> run[i].now <= run[j].now
  }

  /** The least time n spawns can take. */
  function MinSpan(n: nat): int {
    if n <= 1 then 0 else if n == 2 then SECOND else 6 * SECOND + 30 * SECOND * (n - 3)
  }

  function AtMostTwo(n: nat): nat { if n < 2 then n else 2 }

  /** How far apart the spawns so far are, and how far off the backoff keeps the next. */
  ghost predicate Spaced(times: seq<int>, latest: int, after: Backoff) {
    times != [] ==>
      && Last(times) <= latest
      && after.nextAttempt.Some?
      && after.nextAttempt.value >= Last(times) + Ladder(AtMostTwo(|times| - 1))
      && after.ladderIdx >= AtMostTwo(|times|)
      && Last(times) - times[0] >= MinSpan(|times|)
      && (forall k :: 0 <= k < |times| - 1 ==> times[k + 1] - times[k] >= Ladder(AtMostTwo(k)))
  }

  lemma SpawnKeepsSpaced(times: seq<int>, latest: int, b: Backoff, w: World)
    requires Spaced(times, latest, b) && Spawns(b, w) && !SeesWatcher(w)
    ensures Spaced(times + [w.now], w.now, Reconciled(b, w))
  {
    var now := times + [w.now];
    assert times != [] ==> now[0] == times[0] && now[|times| - 1] == Last(times);
    forall k | 0 <= k < |now| - 1 ensures now[k + 1] - now[k] >= Ladder(AtMostTwo(k)) {
      if k < |times| - 1 {
        assert times[k + 1] - times[k] >= Ladder(AtMostTwo(k));
      }
    }
  }

  lemma OtherwiseKeepsSpaced(times: seq<int>, latest: int, b: Backoff, w: World)
    requires Spaced(times, latest, b) && !Spawns(b, w) && !SeesWatcher(w) && (times != [] ==> latest <= w.now)
    ensures Spaced(times, w.now, Reconciled(b, w))
  {
  }

  lemma {:induction false} AlwaysSpaced(b: Backoff, run: seq<World>)
    requires ClockRuns(run) && forall i :: 0 <= i < |run| ==> !SeesWatcher(run[i])
    ensures Spaced(SpawnTimes(b, run), if run == [] then 0 else Last(run).now, After(b, run))
    ensures run == [] ==> SpawnTimes(b, run) == []
  {
    if run != [] {
      var front, w := Front(run), Last(run);
      var latest := if front == [] then 0 else Last(front).now;
      AlwaysSpaced(b, front);
      assert front != [] ==> latest <= w.now;
      if Spawns(After(b, front), w) {
        SpawnKeepsSpaced(SpawnTimes(b, front), latest, After(b, front), w);
      } else {
        assert SpawnTimes(b, run) == SpawnTimes(b, front);
        OtherwiseKeepsSpaced(SpawnTimes(b, front), latest, After(b, front), w);
      }
    }
  }

  /** MAIN: from any backoff state, n >= 3 spawns with no attached watcher seen take at least
      6 + 30(n - 3) s, however token failures are interleaved; and each gap is at least the
      ladder's step. */
  lemma {:induction false} SpawnsAreSpaced(b: Backoff, run: seq<World>)
    requires ClockRuns(run) && forall i :: 0 <= i < |run| ==> !SeesWatcher(run[i])
    ensures var times := SpawnTimes(b, run);
            && (|times| >= 3 ==> Last(times) - times[0] >= 6 * SECOND + 30 * SECOND * (|times| - 3))
            && (forall k :: 0 <= k < |times| - 1 ==> times[k + 1] - times[k] >= Ladder(AtMostTwo(k)))
  {
    AlwaysSpaced(b, run);
  }

  /** Step i of the run uses the ladder. */
  ghost predicate UsedAt(run: seq<World>, i: int) {
    0 <= i < |run| && UsesLadder(After(Backoff(None, 0), run[..i]), run[i])
  }

  lemma {:induction false} NextAttemptIsRecent(run: seq<World>)
    ensures var b := After(Backoff(None, 0), run);
            b.nextAttempt.Some? ==> exists i :: UsedAt(run, i) && b.nextAttempt.value <= run[i].now + 30 * SECOND
  {
    if run != [] {
      var front := Front(run);
      NextAttemptIsRecent(front);
      var before, after := After(Backoff(None, 0), front), After(Backoff(None, 0), run);
      if after.nextAttempt.Some? {
        if UsesLadder(before, Last(run)) && !SeesWatcher(Last(run)) {
          assert run[..|run| - 1] == front;
          assert UsedAt(run, |run| - 1);
        } else {
          var i :| UsedAt(front, i) && before.nextAttempt.value <= front[i].now + 30 * SECOND;
          assert run[..i] == front[..i];
          assert UsedAt(run, i);
        }
      }
    }
  }

  /** MAIN: with a session, a valid token and no watcher, a reconcile always spawns once nothing
      has used the ladder for 30 s. */
  lemma {:induction false} QuietLadderSpawns(run: seq<World>, w: World)
    requires HasSession(w) && w.user.Some? && !w.connected
    requires forall i :: UsedAt(run, i) ==> run[i].now + 30 * SECOND <= w.now
    ensures Spawns(After(Backoff(None, 0), run), w)
  {
    NextAttemptIsRecent(run);
  }

  // ---------------------------------------------------------------------------------------
  // The ladder from below: no slower than its steps.
  // ---------------------------------------------------------------------------------------

  /** A reconcile at time t with a session and a token and no watcher. */
  function Lonely(t: int): World { World(1, Some("S-1-5-21"), t, false, true) }

  /** The earliest times of n spawns: 0, 1, 6, 36, 66, ... seconds. */
  function Earliest(n: nat): seq<World> {
    if n == 0 then [] else Earliest(n - 1) + [Lonely(MinSpan(n))]
  }

  function Times(run: seq<World>): seq<int> {
    if run == [] then [] else Times(Front(run)) + [Last(run).now]
  }

  /** The spacing is reached: reconciling at just these times spawns every time. */
  lemma {:induction false} SpacingIsReached(n: nat)
    ensures SpawnTimes(Backoff(None, 0), Earliest(n)) == Times(Earliest(n))
    ensures n > 0 ==> After(Backoff(None, 0), Earliest(n)) == Backoff(Some(MinSpan(n + 1)), AtMostTwo(n))
    ensures |Earliest(n)| == n
  {
    if n > 0 {
      SpacingIsReached(n - 1);
      LonelySpawns(n);
      hide Spawns, Reconciled, MinSpan;
      assert Front(Earliest(n)) == Earliest(n - 1) && Last(Earliest(n)) == Lonely(MinSpan(n));
    }
  }

  lemma {:induction false} LonelySpawns(n: nat)
    requires n > 0
    ensures var b := if n == 1 then Backoff(None, 0) else Backoff(Some(MinSpan(n)), AtMostTwo(n - 1));
            && Spawns(b, Lonely(MinSpan(n)))
            && Reconciled(b, Lonely(MinSpan(n))) == Backoff(Some(MinSpan(n + 1)), AtMostTwo(n))
    ensures After(Backoff(None, 0), []) == Backoff(None, 0)
  {
  }

  /** The steps in seconds. */
  lemma {:induction false} FirstFourSpawns()
    ensures Times(Earliest(4)) == [0, 1_000_000_000, 6_000_000_000, 36_000_000_000]
  {
    assert Front(Earliest(1)) == Earliest(0) && Front(Earliest(2)) == Earliest(1);
    assert Front(Earliest(3)) == Earliest(2) && Front(Earliest(4)) == Earliest(3);
    assert Times(Earliest(0)) == [] && Times(Earliest(1)) == [0] && Times(Earliest(2)) == [0, SECOND];
    assert Times(Earliest(3)) == [0, SECOND, 6 * SECOND];
  }

  /** An attached watcher resets the ladder: its loss is answered at once, and again after a second. */
  lemma {:induction false} WatcherResetsLadder(b: Backoff, seen: World, w: World, again: World)
    requires SeesWatcher(seen)
    requires HasSession(w) && w.user.Some? && !w.connected && HasSession(again) && again.user.Some? && !again.connected
    ensures Spawns(Reconciled(b, seen), w)
    ensures Spawns(Reconciled(Reconciled(b, seen), w), again) <==> again.now >= w.now + 1_000_000_000
  {
  }

  /** Without a console session, 0 or 0xFFFFFFFF, nothing is spawned and no ladder step used. */
  lemma {:induction false} NobodyNothing(b: Backoff, w: World)
    requires w.session == 0 || w.session == 0xFFFF_FFFF
    ensures !Spawns(b, w) && Reconciled(b, w) == b
  {
  }

  /** A failed token lookup counts like a spawn: after it, the next spawn waits a second at least, and
      from a fresh ladder exactly that. */
  lemma {:induction false} TokenFailureUsesLadder(b: Backoff, w: World, again: World)
    requires HasSession(w) && w.user.None? && HasSession(again) && again.user.Some? && !again.connected
    ensures Spawns(Reconciled(b, w), again) ==> again.now >= w.now + 1_000_000_000
    ensures Spawns(Reconciled(Backoff(None, 0), w), again) <==> again.now >= w.now + 1_000_000_000
    ensures Reconciled(Reconciled(Backoff(None, 0), w), w).nextAttempt == Some(w.now + 5_000_000_000)
  {
  }
}
