/** From the agent's poller to the server's table: every interleaving of appends, uploads, lost
    replies, late requests and restarts (internal/agent/agent.go, internal/agent/shipper.go,
    internal/agent/buffer.go, internal/server/store.go). */
module Delivery {
  import opened Common
  import opened Protocol
  import opened JsonLines
  import opened BufferFile
  import opened BufferQueue
  import opened Shipper
  import Tables = Store

  /** Who holds the agent's mutex between two steps: nobody, or the ship loop waiting for the
      reply to a batch it posted. The poller takes and releases it within one step. */
  datatype Mutex = Free | Shipping(batch: seq<Heartbeat>)

  /** f is the agent's file, done and queue what its lines are; posts are the requests ever put on
      the wire and committed those the server stored; appended, dropped and acked are history. */
  datatype System = System(
    f: File, done: seq<Heartbeat>, queue: seq<Heartbeat>, mu: Mutex,
    posts: set<seq<Heartbeat>>, committed: set<seq<Heartbeat>>, stored: map<string, Heartbeat>,
    appended: set<Heartbeat>, dropped: set<Heartbeat>, acked: set<Heartbeat>)

  /** How far an Append had come when the agent died. */
  datatype Stage = NothingWritten | RotationDone | LineWritten

  datatype Step =
    | Observe(h: Heartbeat)                         // Agent.Observe: lock, Append, unlock
    | FlushBegin                                    // lock, Unacked, post
    | ServerCommit(batch: seq<Heartbeat>)           // a posted request reaches the table, however late
    | FlushAcked                                    // 200 came back: Ack, unlock
    | FlushFailed                                   // server down, rejected, or the reply was lost: unlock
    | Restart                                       // the agent stops or dies between writes and is started again
    | CrashInObserve(h: Heartbeat, stage: Stage)    // it dies inside Append
    | CrashInAck(rewritten: bool)                   // it dies inside Ack, before or after the rename

  /** INSERT OR IGNORE of a batch, keyed by id. */
  function InsertAll(stored: map<string, Heartbeat>, batch: seq<Heartbeat>): map<string, Heartbeat> {
    if batch == [] then stored
    else
      var before := InsertAll(stored, Front(batch));
      if Last(batch).id in before then before else before[Last(batch).id := Last(batch)]
  }

  /** The table as this system sees it: ids and what they were stored with. */
  function Payloads(rows: map<string, Tables.Stored>): map<string, Heartbeat> {
    map id | id in rows :: rows[id].hb
  }

  /** For an enrolled device the server's transaction is InsertAll. */
  lemma {:induction false} FillIsInsertAll(db: Tables.Db, deviceID: string, agentSentAt: int, receivedAt: int,
                                           batch: seq<Heartbeat>)
    requires deviceID in db.devices
    ensures var r := Tables.Fill(db, deviceID, agentSentAt, receivedAt, batch);
            r.Ok? && Payloads(r.value.rows) == InsertAll(Payloads(db.heartbeats), batch)
  {
    if batch != [] {
      FillIsInsertAll(db, deviceID, agentSentAt, receivedAt, Front(batch));
    }
  }

  function SetOf(hs: seq<Heartbeat>): set<Heartbeat> { set h | h in hs }

  ghost predicate Fresh(c: Codec, s: System, h: Heartbeat) {
    Good(c, h) && forall x :: x in s.appended ==> x.id != h.id
  }

  ghost predicate Enabled(c: Codec, s: System, step: Step) {
    match step
    case Observe(h) => s.mu.Free? && Fresh(c, s, h)
    case FlushBegin => s.mu.Free?
    case ServerCommit(batch) => batch in s.posts
    case FlushAcked => s.mu.Shipping? && s.mu.batch in s.committed
    case FlushFailed => s.mu.Shipping?
    case Restart => true
    case CrashInObserve(h, _) => s.mu.Free? && Fresh(c, s, h)
    case CrashInAck(_) => s.mu.Shipping? && s.mu.batch in s.committed
  }

  function Overflowed(maxBytes: int, s: System): set<Heartbeat> {
    if Full(maxBytes, s.f) then SetOf(s.queue[..|s.queue| / 2]) else {}
  }

  function WithLine(c: Codec, maxBytes: int, s: System, h: Heartbeat): System {
    match Appended(c, maxBytes, s.f, h)
    case Err(_) => s
    case Ok(f) =>
      s.(f := f,
         done := if Full(maxBytes, s.f) then [] else s.done,
         queue := (if Full(maxBytes, s.f) then Kept(s.queue) else s.queue) + [h],
         appended := s.appended + {h},
         dropped := s.dropped + Overflowed(maxBytes, s))
  }

  function WithRotation(c: Codec, maxBytes: int, s: System): System {
    match Rotated(c, maxBytes, s.f)
    case Err(_) => s
    case Ok(f) =>
      if Full(maxBytes, s.f)
      then s.(f := f, done := [], queue := Kept(s.queue), dropped := s.dropped + Overflowed(maxBytes, s))
      else s
  }

  function WithAck(c: Codec, s: System): System
    requires s.mu.Shipping?
  {
    var n := |s.mu.batch|;
    var compacts := Compacts(c, s.f, s.queue, n);
    s.(f := Acked(c, s.f, n).0,
       done := if compacts then [] else s.done + Take(s.queue, n),
       queue := Drop(s.queue, n),
       acked := s.acked + SetOf(s.mu.batch))
  }

  function Begun(c: Codec, s: System): System {
    match UnackedOf(c, s.f, BATCH_LIMIT)
    case Err(_) => s
    case Ok(hs) => if hs == [] then s else s.(mu := Shipping(hs), posts := s.posts + {hs})
  }

  function Committed(s: System, batch: seq<Heartbeat>): System {
    s.(stored := InsertAll(s.stored, batch), committed := s.committed + {batch})
  }

  /** OpenBuffer on the file that is there; what was acked in it is queued again. */
  function Reopened(s: System): System {
    s.(f := Opened(s.f.data), done := [], queue := s.done + s.queue, mu := Free)
  }

  function CutObserve(c: Codec, maxBytes: int, s: System, h: Heartbeat, stage: Stage): System {
    match stage
    case NothingWritten => s
    case RotationDone => WithRotation(c, maxBytes, s)
    case LineWritten => WithLine(c, maxBytes, s, h)
  }

  /** An Ack that does not compact writes nothing. */
  function CutAck(c: Codec, s: System, rewritten: bool): System
    requires s.mu.Shipping?
  {
    if rewritten && Compacts(c, s.f, s.queue, |s.mu.batch|) then WithAck(c, s) else s
  }

  ghost function Next(c: Codec, maxBytes: int, s: System, step: Step): System {
    if !Enabled(c, s, step) then s
    else
      match step
      case Observe(h) => WithLine(c, maxBytes, s, h)
      case FlushBegin => Begun(c, s)
      case ServerCommit(batch) => Committed(s, batch)
      case FlushAcked => WithAck(c, s).(mu := Free)
      case FlushFailed => s.(mu := Free)
      case Restart => Reopened(s)
      case CrashInObserve(h, stage) => Reopened(CutObserve(c, maxBytes, s, h, stage))
      case CrashInAck(rewritten) => Reopened(CutAck(c, s, rewritten))
  }

  function Init(): System {
    System(Opened([]), [], [], Free, {}, {}, map[], {}, {}, {})
  }

  /** The state after any sequence of steps; one that is not enabled changes nothing. */
  ghost function After(c: Codec, maxBytes: int, steps: seq<Step>): System {
    if steps == [] then Init() else Next(c, maxBytes, After(c, maxBytes, Front(steps)), Last(steps))
  }

  // ---------------------------------------------------------------------------------------
  // The invariant.
  // ---------------------------------------------------------------------------------------

  ghost predicate IsStored(s: System, h: Heartbeat) {
    h.id in s.stored && s.stored[h.id] == h
  }

  /** Ids are unique: one appended heartbeat per id. */
  ghost predicate UniqueIds(s: System) {
    forall x, y :: x in s.appended && y in s.appended && x.id == y.id ==> x == y
  }

  ghost predicate StoreInv(s: System) {
    && (forall id :: id in s.stored ==> s.stored[id].id == id && s.stored[id] in s.appended)
    && (forall b, h :: b in s.posts && h in b ==> h in s.appended)
    && (forall b, h :: b in s.committed && h in b ==> IsStored(s, h))
    && (forall h :: h in s.acked ==> IsStored(s, h))
  }

  ghost predicate QueueInv(s: System) {
    && (forall h :: h in s.done ==> h in s.appended && IsStored(s, h))
    && (forall h :: h in s.queue ==> h in s.appended)
    && (forall h :: h in s.appended ==> h in s.queue || h in s.dropped || IsStored(s, h))
  }

  /** While the ship loop waits, its batch stays at the head of the queue. */
  ghost predicate MutexInv(s: System) {
    s.mu.Shipping? ==> s.mu.batch in s.posts && s.mu.batch != [] && s.mu.batch == Take(s.queue, BATCH_LIMIT)
  }

  ghost predicate Inv(c: Codec, s: System) {
    Holds(c, s.f, s.done, s.queue) && UniqueIds(s) && StoreInv(s) && QueueInv(s) && MutexInv(s)
  }

  function Entries(s: System): nat { |s.done| + |s.queue| }

  lemma {:induction false} InsertAllStores(stored: map<string, Heartbeat>, batch: seq<Heartbeat>, all: set<Heartbeat>)
    requires forall x, y :: x in all && y in all && x.id == y.id ==> x == y
    requires forall id :: id in stored ==> stored[id].id == id && stored[id] in all
    requires forall h :: h in batch ==> h in all
    ensures var after := InsertAll(stored, batch);
            && (forall id :: id in after ==> after[id].id == id && after[id] in all)
            && (forall id :: id in stored ==> id in after && after[id] == stored[id])
            && (forall h :: h in batch ==> h.id in after && after[h.id] == h)
  {
    if batch != [] {
      InsertAllStores(stored, Front(batch), all);
      assert forall h :: h in batch ==> h in Front(batch) || h == Last(batch);
    }
  }

  lemma CommittedInv(c: Codec, s: System, batch: seq<Heartbeat>)
    requires Inv(c, s) && batch in s.posts
    ensures Inv(c, Committed(s, batch))
  {
    var after := Committed(s, batch);
    InsertAllStores(s.stored, batch, s.appended);
    assert forall h :: IsStored(s, h) ==> IsStored(after, h);
    assert QueueInv(after);
    assert StoreInv(after);
  }

  lemma BegunInv(c: Codec, s: System)
    requires Inv(c, s) && s.mu.Free?
    ensures Inv(c, Begun(c, s))
  {
    var after := Begun(c, s);
    UnackedRefines(c, s.f, s.done, s.queue, BATCH_LIMIT);
    assert forall h :: h in Take(s.queue, BATCH_LIMIT) ==> h in s.queue;
    assert forall h :: IsStored(s, h) ==> IsStored(after, h);
    assert QueueInv(after);
    assert StoreInv(after);
  }

  lemma UnlockedInv(c: Codec, s: System)
    requires Inv(c, s)
    ensures Inv(c, s.(mu := Free))
  {
    var after := s.(mu := Free);
    assert forall h :: IsStored(s, h) ==> IsStored(after, h);
    assert QueueInv(after);
    assert StoreInv(after);
  }

  lemma WithRotationInv(c: Codec, maxBytes: int, s: System)
    requires Inv(c, s) && s.mu.Free? && |s.queue| <= SCAN_ALL
    ensures Inv(c, WithRotation(c, maxBytes, s)) && WithRotation(c, maxBytes, s).mu.Free?
    ensures Entries(WithRotation(c, maxBytes, s)) <= Entries(s)
  {
    if Full(maxBytes, s.f) {
      UnackedRefines(c, s.f, s.done, s.queue, SCAN_ALL);
      RewrittenHolds(c, Kept(s.queue));
      var after := WithRotation(c, maxBytes, s);
      assert s.queue == s.queue[..|s.queue| / 2] + Kept(s.queue);
      assert forall h :: IsStored(s, h) ==> IsStored(after, h);
      assert QueueInv(after);
      assert StoreInv(after);
    }
  }

  lemma WithLineInv(c: Codec, maxBytes: int, s: System, h: Heartbeat)
    requires Inv(c, s) && s.mu.Free? && Fresh(c, s, h) && |s.queue| <= SCAN_ALL
    ensures Inv(c, WithLine(c, maxBytes, s, h)) && WithLine(c, maxBytes, s, h).mu.Free?
    ensures Entries(WithLine(c, maxBytes, s, h)) <= Entries(s) + 1
  {
    var after := WithLine(c, maxBytes, s, h);
    AppendRefines(c, maxBytes, s.f, s.done, s.queue, h);
    assert s.queue == s.queue[..|s.queue| / 2] + Kept(s.queue);
    assert forall x :: IsStored(s, x) ==> IsStored(after, x);
    assert QueueInv(after);
    assert StoreInv(after);
  }

  lemma {:induction false} WithAckInv(c: Codec, s: System)
    requires Inv(c, s) && s.mu.Shipping? && s.mu.batch in s.committed && |s.queue| <= SCAN_ALL
    ensures Inv(c, WithAck(c, s).(mu := Free))
    ensures Entries(WithAck(c, s)) <= Entries(s)
    ensures s.queue == s.mu.batch + WithAck(c, s).queue
  {
    var n := |s.mu.batch|;
    AckRefines(c, s.f, s.done, s.queue, n);
    assert Take(s.queue, n) == s.mu.batch;
    assert s.queue == s.mu.batch + Drop(s.queue, n);
    var after := WithAck(c, s).(mu := Free);
    assert forall h :: IsStored(s, h) ==> IsStored(after, h);
    assert QueueInv(after);
    assert StoreInv(after);
  }

  lemma ReopenedInv(c: Codec, s: System)
    requires Inv(c, s.(mu := Free))
    ensures Inv(c, Reopened(s)) && Entries(Reopened(s)) == Entries(s)
  {
    var before, after := s.(mu := Free), Reopened(s);
    OpenRefines(c, s.f, s.done, s.queue);
    assert forall h :: IsStored(before, h) ==> IsStored(after, h);
    assert QueueInv(after);
    assert StoreInv(after);
  }

  lemma CutObserveInv(c: Codec, maxBytes: int, s: System, h: Heartbeat, stage: Stage)
    requires Inv(c, s) && Entries(s) <= SCAN_ALL && s.mu.Free? && Fresh(c, s, h)
    ensures var cut := CutObserve(c, maxBytes, s, h, stage);
            Inv(c, cut) && cut.mu.Free? && Entries(cut) <= Entries(s) + 1
  {
    match stage
    case NothingWritten =>
    case RotationDone => WithRotationInv(c, maxBytes, s);
    case LineWritten => WithLineInv(c, maxBytes, s, h);
  }

  lemma {:induction false} CutAckInv(c: Codec, s: System, rewritten: bool)
    requires Inv(c, s) && Entries(s) <= SCAN_ALL && s.mu.Shipping? && s.mu.batch in s.committed
    ensures var cut := CutAck(c, s, rewritten); Inv(c, cut.(mu := Free)) && Entries(cut) <= Entries(s)
  {
    WithAckInv(c, s);
    UnlockedInv(c, s);
  }

  lemma {:induction false} NextInv(c: Codec, maxBytes: int, s: System, step: Step)
    requires Inv(c, s) && Entries(s) <= SCAN_ALL
    ensures Inv(c, Next(c, maxBytes, s, step)) && Entries(Next(c, maxBytes, s, step)) <= Entries(s) + 1
  {
    if Enabled(c, s, step) {
      match step
      case Observe(h) => WithLineInv(c, maxBytes, s, h);
      case FlushBegin => BegunInv(c, s);
      case ServerCommit(batch) => CommittedInv(c, s, batch);
      case FlushAcked => WithAckInv(c, s);
      case FlushFailed => UnlockedInv(c, s);
      case Restart =>
        UnlockedInv(c, s);
        ReopenedInv(c, s);
      case CrashInObserve(h, stage) =>
        CutObserveInv(c, maxBytes, s, h, stage);
        UnlockedInv(c, CutObserve(c, maxBytes, s, h, stage));
        ReopenedInv(c, CutObserve(c, maxBytes, s, h, stage));
      case CrashInAck(rewritten) =>
        CutAckInv(c, s, rewritten);
        ReopenedInv(c, CutAck(c, s, rewritten));
    }
  }

  /** At no point of the run does the file hold more lines than compact and rotateIfFull read. */
  ghost predicate Fits(c: Codec, maxBytes: int, steps: seq<Step>) {
    Entries(After(c, maxBytes, steps)) <= SCAN_ALL && (steps != [] ==> Fits(c, maxBytes, Front(steps)))
  }

  /** A run of at most that many steps cannot help it. */
  lemma {:induction false} ShortRunsFit(c: Codec, maxBytes: int, steps: seq<Step>)
    requires |steps| <= SCAN_ALL
    ensures Fits(c, maxBytes, steps) && Entries(After(c, maxBytes, steps)) <= |steps|
  {
    if steps != [] {
      ShortRunsFit(c, maxBytes, Front(steps));
      Always(c, maxBytes, Front(steps));
      NextInv(c, maxBytes, After(c, maxBytes, Front(steps)), Last(steps));
    }
  }

  lemma {:induction false} Always(c: Codec, maxBytes: int, steps: seq<Step>)
    requires Fits(c, maxBytes, steps)
    ensures Inv(c, After(c, maxBytes, steps))
  {
    if steps != [] {
      Always(c, maxBytes, Front(steps));
      NextInv(c, maxBytes, After(c, maxBytes, Front(steps)), Last(steps));
    }
  }

  // ---------------------------------------------------------------------------------------
  // What it means.
  // ---------------------------------------------------------------------------------------

  /** MAIN: in every interleaving, every appended heartbeat is in the buffer (as a read of the
      file shows), in the server's table with its original payload, or was dropped by overflow. */
  lemma {:induction false} NothingIsLost(c: Codec, maxBytes: int, steps: seq<Step>, h: Heartbeat)
    requires Fits(c, maxBytes, steps) && h in After(c, maxBytes, steps).appended
    ensures var s := After(c, maxBytes, steps);
            || h in s.dropped
            || (h.id in s.stored && s.stored[h.id] == h)
            || (var all := UnackedOf(c, s.f, SCAN_ALL); all.Ok? && h in all.value)
  {
    var s := After(c, maxBytes, steps);
    Always(c, maxBytes, steps);
    UnackedRefines(c, s.f, s.done, s.queue, SCAN_ALL);
    assert Take(s.queue, SCAN_ALL) == s.queue;
  }

  /** MAIN: the table holds each id once, with the payload it was appended with; and all that was
      ever acked is in it. */
  lemma {:induction false} StoredOnceAndAsAppended(c: Codec, maxBytes: int, steps: seq<Step>)
    requires Fits(c, maxBytes, steps)
    ensures var s := After(c, maxBytes, steps);
            && (forall id :: id in s.stored ==> s.stored[id].id == id && s.stored[id] in s.appended)
            && (forall id, x :: id in s.stored && x in s.appended && x.id == id ==> s.stored[id] == x)
            && (forall h :: h in s.acked ==> h.id in s.stored && s.stored[h.id] == h)
  {
    Always(c, maxBytes, steps);
  }

  /** MAIN: from Unacked to Ack the posted batch stays at the head of the queue, so what Ack
      removes is exactly what was posted and stored. */
  lemma {:induction false} AckRemovesWhatWasPosted(c: Codec, maxBytes: int, steps: seq<Step>)
    requires Fits(c, maxBytes, steps) && Enabled(c, After(c, maxBytes, steps), FlushAcked)
    ensures var before, after := After(c, maxBytes, steps), After(c, maxBytes, steps + [FlushAcked]);
            && before.queue == before.mu.batch + after.queue
            && UnackedOf(c, before.f, BATCH_LIMIT) == Ok(before.mu.batch)
            && UnackedOf(c, after.f, SCAN_ALL) == Ok(after.queue)
            && forall h :: h in before.mu.batch ==> h.id in after.stored && after.stored[h.id] == h
  {
    var before := After(c, maxBytes, steps);
    Always(c, maxBytes, steps);
    assert Front(steps + [FlushAcked]) == steps;
    WithAckInv(c, before);
    UnackedRefines(c, before.f, before.done, before.queue, BATCH_LIMIT);
    var after := WithAck(c, before).(mu := Free);
    UnackedRefines(c, after.f, after.done, after.queue, SCAN_ALL);
    assert Take(after.queue, SCAN_ALL) == after.queue;
  }

  // ---------------------------------------------------------------------------------------
  // That anything moves.
  // ---------------------------------------------------------------------------------------

  /** A heartbeat observed while nobody holds the mutex is the newest entry of the file. */
  lemma {:induction false} ObservedIsQueued(c: Codec, maxBytes: int, steps: seq<Step>, h: Heartbeat)
    requires Fits(c, maxBytes, steps) && Fits(c, maxBytes, steps + [Observe(h)])
    requires var s := After(c, maxBytes, steps); s.mu.Free? && Fresh(c, s, h)
    ensures var s, after := After(c, maxBytes, steps), After(c, maxBytes, steps + [Observe(h)]);
            && after.appended == s.appended + {h} && after.mu.Free?
            && after.queue != [] && Last(after.queue) == h
            && UnackedOf(c, after.f, SCAN_ALL) == Ok(after.queue)
            && (!Full(maxBytes, s.f) ==> after.queue == s.queue + [h] && after.dropped == s.dropped)
  {
    var s := After(c, maxBytes, steps);
    Always(c, maxBytes, steps);
    Always(c, maxBytes, steps + [Observe(h)]);
    assert Front(steps + [Observe(h)]) == steps;
    AppendRefines(c, maxBytes, s.f, s.done, s.queue, h);
    var after := After(c, maxBytes, steps + [Observe(h)]);
    UnackedRefines(c, after.f, after.done, after.queue, SCAN_ALL);
    assert Take(after.queue, SCAN_ALL) == after.queue;
  }

  /** MAIN: a flush that the server stores and answers takes the oldest 500 entries off the queue, and
      they are stored and acked. */
  lemma {:induction false} FlushDelivers(c: Codec, maxBytes: int, steps: seq<Step>)
    requires Fits(c, maxBytes, steps)
    requires var s := After(c, maxBytes, steps); s.mu.Free? && s.queue != []
    ensures var s := After(c, maxBytes, steps);
            var batch := Take(s.queue, 500);
            var after := After(c, maxBytes, steps + [FlushBegin] + [ServerCommit(batch)] + [FlushAcked]);
            && after.mu.Free? && after.queue == Drop(s.queue, 500) && after.dropped == s.dropped
            && forall h :: h in batch ==> h in after.acked && h.id in after.stored && after.stored[h.id] == h
  {
    var s := After(c, maxBytes, steps);
    var batch := Take(s.queue, 500);
    Always(c, maxBytes, steps);
    UnackedRefines(c, s.f, s.done, s.queue, BATCH_LIMIT);
    var one := steps + [FlushBegin];
    assert Front(one) == steps;
    var begun := After(c, maxBytes, one);
    assert begun == s.(mu := Shipping(batch), posts := s.posts + {batch});
    BegunInv(c, s);
    var two := one + [ServerCommit(batch)];
    assert Front(two) == one && Enabled(c, begun, ServerCommit(batch));
    CommittedInv(c, begun, batch);
    var committed := After(c, maxBytes, two);
    assert committed == Committed(begun, batch) && Enabled(c, committed, FlushAcked);
    assert Front(two + [FlushAcked]) == two;
    WithAckInv(c, committed);
    assert forall h :: h in batch ==> IsStored(committed, h);
    DroppedBatch(s.queue, 500);
  }

  lemma DroppedBatch(queue: seq<Heartbeat>, n: nat)
    ensures Drop(queue, |Take(queue, n)|) == Drop(queue, n)
  {
  }

  /** Nothing counts as dropped but the oldest half of a full file, when an append found it full. */
  lemma {:induction false} OnlyOverflowDrops(c: Codec, maxBytes: int, s: System, step: Step, h: Heartbeat)
    requires h in Next(c, maxBytes, s, step).dropped && h !in s.dropped
    ensures (step.Observe? || step.CrashInObserve?) && s.f.size - s.f.ackedOff > maxBytes
    ensures exists i :: 0 <= i < |s.queue| / 2 && s.queue[i] == h
  {
    assert h in SetOf(s.queue[..|s.queue| / 2]);
    var i :| 0 <= i < |s.queue[..|s.queue| / 2]| && s.queue[..|s.queue| / 2][i] == h;
    assert s.queue[i] == h;
  }

  /** A restart queues again what was acked but not yet compacted away, and loses nothing else. */
  lemma {:induction false} RestartRequeues(c: Codec, maxBytes: int, steps: seq<Step>)
    requires Fits(c, maxBytes, steps)
    ensures var s, after := After(c, maxBytes, steps), After(c, maxBytes, steps + [Restart]);
            && after.mu.Free? && after.queue == s.done + s.queue && after.stored == s.stored
            && UnackedOf(c, after.f, SCAN_ALL) == Ok(after.queue)
  {
    var s := After(c, maxBytes, steps);
    Always(c, maxBytes, steps);
    assert Front(steps + [Restart]) == steps;
    UnlockedInv(c, s);
    ReopenedInv(c, s);
    var after := Reopened(s);
    UnackedRefines(c, after.f, after.done, after.queue, SCAN_ALL);
    assert Take(after.queue, SCAN_ALL) == after.queue;
  }

  /** A heartbeat whose line was written survives the crash that came right after. */
  lemma {:induction false} WrittenSurvivesCrash(c: Codec, maxBytes: int, steps: seq<Step>, h: Heartbeat)
    requires Fits(c, maxBytes, steps) && Fits(c, maxBytes, steps + [CrashInObserve(h, LineWritten)])
    requires var s := After(c, maxBytes, steps); s.mu.Free? && Fresh(c, s, h)
    ensures var after := After(c, maxBytes, steps + [CrashInObserve(h, LineWritten)]);
            && h in after.appended && after.queue != [] && Last(after.queue) == h
            && UnackedOf(c, after.f, SCAN_ALL) == Ok(after.queue)
  {
    var s := After(c, maxBytes, steps);
    Always(c, maxBytes, steps);
    Always(c, maxBytes, steps + [CrashInObserve(h, LineWritten)]);
    assert Front(steps + [CrashInObserve(h, LineWritten)]) == steps;
    AppendRefines(c, maxBytes, s.f, s.done, s.queue, h);
    var after := After(c, maxBytes, steps + [CrashInObserve(h, LineWritten)]);
    assert Last(WithLine(c, maxBytes, s, h).queue) == h && after == Reopened(WithLine(c, maxBytes, s, h));
    hide WithLine, Appended;
    UnackedRefines(c, after.f, after.done, after.queue, SCAN_ALL);
    assert Take(after.queue, SCAN_ALL) == after.queue;
  }

  /** A crash inside an Ack: after the rename the acked entries are gone for good, before it, or when the
      Ack does not compact, they are queued again. */
  lemma {:induction false} CrashInAckIs(c: Codec, maxBytes: int, steps: seq<Step>, rewritten: bool)
    requires Fits(c, maxBytes, steps) && Enabled(c, After(c, maxBytes, steps), CrashInAck(rewritten))
    ensures var s, after := After(c, maxBytes, steps), After(c, maxBytes, steps + [CrashInAck(rewritten)]);
            && after.mu.Free?
            && (rewritten && Compacts(c, s.f, s.queue, |s.mu.batch|) ==> after.queue == Drop(s.queue, |s.mu.batch|))
            && (!(rewritten && Compacts(c, s.f, s.queue, |s.mu.batch|)) ==> after.queue == s.done + s.queue)
            && UnackedOf(c, after.f, SCAN_ALL) == Ok(after.queue)
  {
    var s := After(c, maxBytes, steps);
    Always(c, maxBytes, steps);
    assert Front(steps + [CrashInAck(rewritten)]) == steps;
    CutAckInv(c, s, rewritten);
    ReopenedInv(c, CutAck(c, s, rewritten));
    var after := Reopened(CutAck(c, s, rewritten));
    UnackedRefines(c, after.f, after.done, after.queue, SCAN_ALL);
    assert Take(after.queue, SCAN_ALL) == after.queue;
  }
}
