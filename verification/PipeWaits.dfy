/** When a pipe instance under an old DACL is left waiting for clients it refuses
    (internal/agent/pipe_windows.go, EnsureSDDL and dropPendingLocked). */
module PipeWaits {
  import opened Common
  import opened Pipe

  predicate IsPending(p: Server, gen: nat) { p.pending != 0 && p.pendingGen == gen }

  /** The instance of generation gen waits for a client. */
  predicate WaitsOn(p: Server, gen: nat) {
    IsPending(p, gen) && p.pending in p.open && p.open[p.pending].conn.Waiting?
  }

  /** The step calls CancelIoEx on the pending instance. */
  predicate CancelsPending(p: Server, step: Step) {
    p.pending != 0 && Enabled(p, step) &&
    match step
    case EnsureSddl(_, userSID) => userSID != "" && SddlFor(userSID) != p.sddl
    case EnsureWake(caller) => !Returns(p, p.callers[caller]) && p.callers[caller].cancels < MAX_CANCELS
    case Ends(ending) => ending.Shutdown?
    case _ => false
  }

  predicate IssuesPending(p: Server, step: Step) {
    step == ConnectIssue(Waiting) && Enabled(p, step)
  }

  predicate CompletesPending(p: Server, step: Step) {
    step.ConnectComplete? && Enabled(p, step)
  }

  /** The pending instance is the accept loop's own, apart from every client's. */
  ghost predicate Apart(p: Server) {
    p.pending != 0 ==>
      && p.pending in p.open && Held(p.serve) == Some(p.pending) && Posted(p.serve) == p.pending
      && (forall f :: f in p.files && p.files[f].isOpen ==> p.files[f].handle != p.pending)
      && (forall t :: t in p.callers && p.callers[t].gen == p.pendingGen ==> p.callers[t].h == p.pending)
  }

  lemma {:induction false} InvApart(p: Server)
    requires Inv(p)
    ensures Apart(p) && (p.serve.Created? ==> p.pending == 0)
  {
  }

  /** A connect is not issued before the instance is posted. */
  ghost predicate Unissued(p: Server) {
    p.serve.Created? ==> p.serve.h in p.open && p.open[p.serve.h].conn.NotIssued?
  }

  /** A created instance is nobody else's. */
  ghost predicate OwnCreated(p: Server) {
    p.serve.Created? ==>
      p.pending == 0 && forall f :: f in p.files && p.files[f].isOpen ==> p.files[f].handle != p.serve.h
  }

  lemma ClientDroppedUnissued(p: Server)
    requires OwnCreated(p) && Unissued(p)
    ensures Unissued(ClientDropped(p))
  {
  }

  lemma EnsuredUnissued(p: Server, caller: nat, userSID: string)
    requires OwnCreated(p) && Unissued(p)
    ensures Unissued(Ensured(p, caller, userSID))
  {
    ClientDroppedUnissued(p);
    hide ClientDropped;
    assert ClientDropped(p).serve == p.serve;
  }

  lemma WokenUnissued(p: Server, caller: nat)
    requires Unissued(p) && OwnCreated(p) && caller in p.callers
    ensures Unissued(Woken(p, caller))
  {
  }

  lemma OpenedUnissued(p: Server, step: Opening)
    requires OpeningEnabled(p, step)
    ensures Unissued(Opened(p, step))
  {
  }

  lemma EndedUnissued(p: Server, step: Ending)
    requires EndingEnabled(p, step)
    ensures Unissued(Ended(p, step))
  {
  }

  lemma {:induction false} StaysUnissued(p: Server, step: Step)
    requires Inv(p) && Unissued(p)
    ensures Unissued(Next(p, step))
  {
    assert OwnCreated(p);
    hide Inv, OwnCreated;
    if Enabled(p, step) {
      match step
      case Opens(opening) => OpenedUnissued(p, opening);
      case Ends(ending) => EndedUnissued(p, ending);
      case EnsureSddl(caller, userSID) => EnsuredUnissued(p, caller, userSID);
      case EnsureWake(caller) => WokenUnissued(p, caller);
      case ReaderClose(file) => ReaderClosedUnissued(p, file);
      case _ =>
    }
  }

  lemma ReaderClosedUnissued(p: Server, file: nat)
    requires Unissued(p) && OwnCreated(p) && file in p.closing
    ensures Unissued(Next(p, ReaderClose(file)))
  {
  }

  lemma {:induction false} AlwaysUnissued(sddl: string, steps: seq<Step>)
    ensures Unissued(After(sddl, steps))
  {
    if steps != [] {
      AlwaysUnissued(sddl, Front(steps));
      Always(sddl, Front(steps));
      StaysUnissued(After(sddl, Front(steps)), Last(steps));
    }
  }

  /** Nothing about the pending instance changed. */
  predicate SamePending(p: Server, q: Server) {
    && q.pending == p.pending && q.pendingGen == p.pendingGen
    && (p.pending != 0 && p.pending in p.open ==> p.pending in q.open && q.open[p.pending] == p.open[p.pending])
  }

  lemma ClientDroppedPending(p: Server)
    requires Apart(p)
    ensures SamePending(p, ClientDropped(p))
  {
  }

  lemma OpenedPending(p: Server, step: Opening)
    requires Apart(p) && Unissued(p) && OpeningEnabled(p, step) && (p.serve.Created? ==> p.pending == 0)
    ensures var q := Opened(p, step);
            || SamePending(p, q)
            || (q.pending == 0 && q.pendingGen == p.pendingGen)
            || (p.pending == 0 && q.pendingGen == p.pendingGen + 1 && !WaitsOn(q, q.pendingGen))
  {
  }

  lemma EndedPending(p: Server, step: Ending)
    requires Apart(p) && EndingEnabled(p, step) && !step.Shutdown?
    ensures var q := Ended(p, step); SamePending(p, q) || (q.pending == 0 && q.pendingGen == p.pendingGen)
  {
    ClientDroppedPending(p);
  }

  lemma EnsuredPending(p: Server, caller: nat, userSID: string)
    requires Apart(p) && caller !in p.callers
    ensures var q := Ensured(p, caller, userSID);
            && q.pending == p.pending && q.pendingGen == p.pendingGen
            && if CancelsPending(p, EnsureSddl(caller, userSID)) then !WaitsOn(q, q.pendingGen) else SamePending(p, q)
  {
    ClientDroppedPending(p);
    hide ClientDropped;
  }

  lemma WokenPending(p: Server, caller: nat)
    requires Apart(p) && caller in p.callers
    ensures var q := Woken(p, caller);
            && q.pending == p.pending && q.pendingGen == p.pendingGen
            && if CancelsPending(p, EnsureWake(caller)) then !WaitsOn(q, q.pendingGen) else SamePending(p, q)
  {
  }

  lemma OtherPending(p: Server, step: Step)
    requires Apart(p) && Enabled(p, step) && (step.ReaderDone? || step.ReaderClose?)
    ensures SamePending(p, Next(p, step))
  {
  }

  /** What one step does to a wait. */
  lemma {:induction false} StepWaits(p: Server, step: Step, gen: nat)
    requires Inv(p) && Unissued(p) && IsPending(Next(p, step), gen)
    ensures WaitsOn(Next(p, step), gen) <==>
            || IssuesPending(p, step)
            || (WaitsOn(p, gen) && !CancelsPending(p, step) && !CompletesPending(p, step))
  {
    InvApart(p);
    hide Inv, Apart;
    if Enabled(p, step) {
      match step
      case Opens(opening) => OpenedPending(p, opening);
      case Ends(ending) =>
        if !ending.Shutdown? {
          EndedPending(p, ending);
        }
      case EnsureSddl(caller, userSID) => EnsuredPending(p, caller, userSID);
      case EnsureWake(caller) => WokenPending(p, caller);
      case ConnectIssue(_) =>
      case ConnectComplete(_) =>
      case _ => OtherPending(p, step);
    }
  }

  lemma {:induction false} StepPending(p: Server, step: Step, gen: nat)
    requires Inv(p) && Unissued(p) && p.pendingGen >= gen
    ensures Next(p, step).pendingGen >= gen
    ensures IsPending(Next(p, step), gen) ==> IsPending(p, gen)
  {
    InvApart(p);
    hide Inv, Apart;
    if Enabled(p, step) {
      match step
      case Opens(opening) => OpenedPending(p, opening);
      case Ends(ending) =>
        if !ending.Shutdown? {
          EndedPending(p, ending);
        }
      case EnsureSddl(caller, userSID) => EnsuredPending(p, caller, userSID);
      case EnsureWake(caller) => WokenPending(p, caller);
      case ConnectIssue(_) =>
      case ConnectComplete(_) =>
      case _ => OtherPending(p, step);
    }
  }

  lemma {:induction false} GenGrows(sddl: string, steps: seq<Step>, n: nat)
    requires n <= |steps|
    ensures After(sddl, steps[..n]).pendingGen <= After(sddl, steps).pendingGen
    decreases |steps|
  {
    if n < |steps| {
      assert Front(steps)[..n] == steps[..n];
      GenGrows(sddl, Front(steps), n);
      Always(sddl, Front(steps));
      AlwaysUnissued(sddl, Front(steps));
      StepPending(After(sddl, Front(steps)), Last(steps), After(sddl, Front(steps)).pendingGen);
    } else {
      assert steps[..n] == steps;
    }
  }

  /** Step n issued the connect of generation gen, and no cancel and no result came since. */
  ghost predicate LastIssuedAt(sddl: string, steps: seq<Step>, gen: nat, n: int) {
    && 0 <= n < |steps|
    && After(sddl, steps[..n]).pendingGen == gen && IssuesPending(After(sddl, steps[..n]), steps[n])
    && forall m :: n < m < |steps| ==>
         !CancelsPending(After(sddl, steps[..m]), steps[m]) && !CompletesPending(After(sddl, steps[..m]), steps[m])
  }

  /** A pending instance waits if and only if its connect was issued after every cancel. */
  lemma {:induction false} WaitsIffLastIssued(sddl: string, steps: seq<Step>, gen: nat)
    requires IsPending(After(sddl, steps), gen)
    ensures WaitsOn(After(sddl, steps), gen) <==> exists n :: LastIssuedAt(sddl, steps, gen, n)
  {
    if steps != [] {
      var front, last := Front(steps), |steps| - 1;
      var p := After(sddl, front);
      Always(sddl, front);
      AlwaysUnissued(sddl, front);
      StepWaits(p, Last(steps), gen);
      assert steps[..last] == front && After(sddl, steps) == Next(p, Last(steps));
      hide Next, CancelsPending, CompletesPending, WaitsOn;
      if IssuesPending(p, Last(steps)) {
        assert Next(p, Last(steps)).pendingGen == p.pendingGen;
        assert LastIssuedAt(sddl, steps, gen, last);
      } else {
        if WaitsOn(After(sddl, steps), gen) {
          WaitsIffLastIssued(sddl, front, gen);
          var n :| LastIssuedAt(sddl, front, gen, n);
          IssuedInAll(sddl, steps, gen, n);
        }
        if n :| LastIssuedAt(sddl, steps, gen, n) {
          StillPending(sddl, steps, gen, n);
          IssuedInFront(sddl, steps, gen, n);
          WaitsIffLastIssued(sddl, front, gen);
        }
      }
    }
  }

  lemma {:induction false} StillPending(sddl: string, steps: seq<Step>, gen: nat, n: int)
    requires steps != [] && LastIssuedAt(sddl, steps, gen, n) && n != |steps| - 1
    requires IsPending(After(sddl, steps), gen)
    ensures IsPending(After(sddl, Front(steps)), gen)
  {
    var front := Front(steps);
    assert front[..n] == steps[..n];
    GenGrows(sddl, front, n);
    Always(sddl, front);
    AlwaysUnissued(sddl, front);
    StepPending(After(sddl, front), Last(steps), gen);
  }

  lemma IssuedInFront(sddl: string, steps: seq<Step>, gen: nat, n: int)
    requires steps != [] && LastIssuedAt(sddl, steps, gen, n) && n != |steps| - 1
    ensures LastIssuedAt(sddl, Front(steps), gen, n)
    ensures var p := After(sddl, Front(steps)); !CancelsPending(p, Last(steps)) && !CompletesPending(p, Last(steps))
  {
    hide After, CancelsPending, CompletesPending, IssuesPending;
    assert steps[..|steps| - 1] == Front(steps);
    assert forall m :: 0 <= m < |steps| - 1 ==> Front(steps)[..m] == steps[..m];
  }

  lemma IssuedInAll(sddl: string, steps: seq<Step>, gen: nat, n: int)
    requires steps != [] && LastIssuedAt(sddl, Front(steps), gen, n)
    requires var p := After(sddl, Front(steps)); !CancelsPending(p, Last(steps)) && !CompletesPending(p, Last(steps))
    ensures LastIssuedAt(sddl, steps, gen, n)
  {
    hide After, CancelsPending, CompletesPending, IssuesPending;
    assert steps[..|steps| - 1] == Front(steps);
    assert forall m :: 0 <= m < |steps| - 1 ==> Front(steps)[..m] == steps[..m];
  }

  /** How often the instance of a generation was cancelled. */
  function Cancels(sddl: string, steps: seq<Step>, gen: nat): nat {
    if steps == [] then 0
    else
      var p := After(sddl, Front(steps));
      Cancels(sddl, Front(steps), gen) + if p.pendingGen == gen && CancelsPending(p, Last(steps)) then 1 else 0
  }

  /** A caller's count is of real cancels; and one that gave up made all of them. */
  ghost predicate CancelsCounted(sddl: string, steps: seq<Step>) {
    var p := After(sddl, steps);
    && (forall t :: t in p.callers ==> p.callers[t].cancels <= Cancels(sddl, steps, p.callers[t].gen))
    && (forall gen :: gen in p.gaveUp ==> Cancels(sddl, steps, gen) >= MAX_CANCELS)
  }

  lemma {:induction false} CancelsAreCounted(sddl: string, steps: seq<Step>)
    ensures CancelsCounted(sddl, steps)
  {
    if steps != [] {
      CancelsAreCounted(sddl, Front(steps));
      Always(sddl, Front(steps));
      CountStep(After(sddl, Front(steps)), Last(steps));
    }
  }

  /** A caller in q is as it was in p, or has just cancelled once more; whoever gave up was done. */
  ghost predicate CountsOn(p: Server, q: Server, cancelled: bool) {
    && (forall t :: t in q.callers ==>
          || (t in p.callers && q.callers[t] == p.callers[t])
          || (cancelled && q.callers[t].gen == p.pendingGen
              && q.callers[t].cancels <= 1 + if t in p.callers && p.callers[t].gen == p.pendingGen
                                             then p.callers[t].cancels else 0))
    && (forall gen :: gen in q.gaveUp ==>
          gen in p.gaveUp
          || exists t :: t in p.callers && p.callers[t].gen == gen && p.callers[t].cancels >= MAX_CANCELS)
  }

  lemma {:induction false} CountStep(p: Server, step: Step)
    ensures CountsOn(p, Next(p, step), CancelsPending(p, step))
  {
    if Enabled(p, step) {
      match step
      case EnsureSddl(caller, userSID) => EnsuredCounts(p, caller, userSID);
      case EnsureWake(caller) => WokenCounts(p, caller);
      case Opens(opening) => OpenedCallers(p, opening);
      case Ends(ending) => EndedCallers(p, ending);
      case _ =>
    }
  }

  lemma OpenedCallers(p: Server, step: Opening)
    requires OpeningEnabled(p, step)
    ensures Opened(p, step).callers == p.callers && Opened(p, step).gaveUp == p.gaveUp
  {
  }

  lemma EndedCallers(p: Server, step: Ending)
    requires EndingEnabled(p, step)
    ensures Ended(p, step).callers == p.callers && Ended(p, step).gaveUp == p.gaveUp
  {
    ClientDroppedCallers(p);
    hide ClientDropped;
    match step
    case AdoptClient(file) =>
    case RunDeferred => DeferredCallers(p);
    case _ =>
  }

  lemma ClientDroppedCallers(p: Server)
    ensures ClientDropped(p).callers == p.callers && ClientDropped(p).gaveUp == p.gaveUp
    ensures ClientDropped(p).pending == p.pending && ClientDropped(p).pendingGen == p.pendingGen
  {
  }

  lemma DeferredCallers(p: Server)
    ensures Deferred(p).callers == p.callers && Deferred(p).gaveUp == p.gaveUp
  {
    ClientDroppedCallers(p);
    hide ClientDropped;
  }

  lemma EnsuredCounts(p: Server, caller: nat, userSID: string)
    requires caller !in p.callers
    ensures CountsOn(p, Ensured(p, caller, userSID), CancelsPending(p, EnsureSddl(caller, userSID)))
  {
    ClientDroppedCallers(p);
    hide ClientDropped;
  }

  lemma WokenCounts(p: Server, caller: nat)
    requires caller in p.callers
    ensures CountsOn(p, Woken(p, caller), CancelsPending(p, EnsureWake(caller)))
  {
  }

  lemma {:induction false} CancelsBefore(sddl: string, steps: seq<Step>, gen: nat, n: int)
    requires LastIssuedAt(sddl, steps, gen, n)
    ensures Cancels(sddl, steps[..n], gen) == Cancels(sddl, steps, gen)
    decreases |steps|
  {
    var front, last := Front(steps), |steps| - 1;
    assert steps[..last] == front;
    if n < last {
      assert front[..n] == steps[..n];
      IssuedInFront(sddl, steps, gen, n);
      CancelsBefore(sddl, front, gen, n);
    }
  }

  /** MAIN: an instance under an old DACL waits with nobody left to cancel it if and only if its connect
      was issued only after 100 cancels had missed it, and nothing came since. */
  lemma {:induction false} LeftWaitingIff(sddl: string, steps: seq<Step>)
    requires var p := After(sddl, steps);
             p.pending != 0 && p.pending in p.open && p.open[p.pending].sddl != p.sddl
    requires var p := After(sddl, steps); !BeingCancelled(p.callers, p.pendingGen)
    ensures var p := After(sddl, steps);
            WaitsOn(p, p.pendingGen) <==>
            exists n :: LastIssuedAt(sddl, steps, p.pendingGen, n)
                        && Cancels(sddl, steps[..n], p.pendingGen) >= 100
  {
    var gen := After(sddl, steps).pendingGen;
    Always(sddl, steps);
    CancelsAreCounted(sddl, steps);
    WaitsIffLastIssued(sddl, steps, gen);
    if n :| LastIssuedAt(sddl, steps, gen, n) {
      CancelsBefore(sddl, steps, gen, n);
    }
  }

  /** The connect of generation gen is over, one way or the other. */
  predicate Settled(p: Server, gen: nat) {
    p.pendingGen >= gen &&
    (IsPending(p, gen) ==> p.pending in p.open && (p.open[p.pending].conn.Accepted? || p.open[p.pending].conn.Refused?))
  }

  lemma {:induction false} StaysSettled(p: Server, step: Step, gen: nat)
    requires Inv(p) && Unissued(p) && Settled(p, gen)
    ensures Settled(Next(p, step), gen)
  {
    StepPending(p, step, gen);
  }

  /** MAIN: one cancel that finds the connect issued is enough: that instance never waits again. */
  lemma {:induction false} OneCancelSettles(sddl: string, steps: seq<Step>, step: Step, more: seq<Step>)
    requires var p := After(sddl, steps);
             CancelsPending(p, step) && p.pending in p.open && !p.open[p.pending].conn.NotIssued?
    ensures var gen := After(sddl, steps).pendingGen;
            Settled(After(sddl, steps + [step] + more), gen) && !WaitsOn(After(sddl, steps + [step] + more), gen)
  {
    var gen := After(sddl, steps).pendingGen;
    Always(sddl, steps);
    if more == [] {
      assert Front(steps + [step]) == steps && steps + [step] + [] == steps + [step];
      CancelSettles(After(sddl, steps), step);
    } else {
      OneCancelSettles(sddl, steps, step, Front(more));
      assert Front(steps + [step] + more) == steps + [step] + Front(more);
      Always(sddl, steps + [step] + Front(more));
      AlwaysUnissued(sddl, steps + [step] + Front(more));
      StaysSettled(After(sddl, steps + [step] + Front(more)), Last(more), gen);
    }
  }

  lemma {:induction false} CancelSettles(p: Server, step: Step)
    requires Inv(p) && CancelsPending(p, step) && p.pending in p.open && !p.open[p.pending].conn.NotIssued?
    ensures Settled(Next(p, step), p.pendingGen)
  {
  }

  // ---------------------------------------------------------------------------------------
  // A run that leaves it waiting: the connect goroutine is not scheduled during all 100 cancels.
  // ---------------------------------------------------------------------------------------

  function Wakes(n: nat): seq<Step> {
    if n == 0 then [] else Wakes(n - 1) + [EnsureWake(0)]
  }

  function Posting(userSID: string): seq<Step> {
    [Opens(ReadDacl), Opens(CheckStale), Opens(LookupPending), Opens(CreateInstance(1)), Opens(StorePending),
     EnsureSddl(0, userSID)]
  }

  /** The state after that and n wakes. */
  function Asleep(sddl: string, userSID: string, n: nat): Server {
    Server(SddlFor(userSID), 1, 1, None, false, true, Connecting(1), map[0 := Caller(1, 1, n + 1, 0)], {}, {},
           map[1 := Instance(0, sddl, NotIssued)], map[], 1, {})
  }

  lemma {:induction false} AfterPosting(sddl: string, userSID: string)
    requires userSID != "" && SddlFor(userSID) != sddl
    ensures After(sddl, Posting(userSID)) == Asleep(sddl, userSID, 0)
  {
    var a, b, c := Opens(ReadDacl), Opens(CheckStale), Opens(LookupPending);
    var d, e := Opens(CreateInstance(1)), Opens(StorePending);
    var f := EnsureSddl(0, userSID);
    assert Front([a, b, c, d, e, f]) == [a, b, c, d, e] && Front([a, b, c, d, e]) == [a, b, c, d];
    assert Front([a, b, c, d]) == [a, b, c] && Front([a, b, c]) == [a, b] && Front([a, b]) == [a] && Front([a]) == [];
    var p1 := Init(sddl).(serve := Read(sddl, false));
    assert After(sddl, [a]) == p1;
    assert After(sddl, [a, b]) == p1.(serve := Lookup(sddl));
    assert After(sddl, [a, b, c]) == p1.(serve := Create(sddl));
    var p4 := p1.(serve := Created(1), open := map[1 := Instance(0, sddl, NotIssued)], serials := 1);
    assert After(sddl, [a, b, c, d]) == p4;
    assert After(sddl, [a, b, c, d, e]) == p4.(serve := Connecting(1), pending := 1, pendingGen := 1);
  }

  lemma WakeAgain(sddl: string, userSID: string, n: nat)
    requires n + 1 < MAX_CANCELS
    ensures Next(Asleep(sddl, userSID, n), EnsureWake(0)) == Asleep(sddl, userSID, n + 1)
  {
  }

  /** The state when the caller has given up. */
  function GivenUp(sddl: string, userSID: string): Server {
    Asleep(sddl, userSID, 0).(callers := map[], gaveUp := {1})
  }

  lemma WakeLast(sddl: string, userSID: string)
    ensures Next(Asleep(sddl, userSID, MAX_CANCELS - 1), EnsureWake(0)) == GivenUp(sddl, userSID)
  {
    assert map[0 := Caller(1, 1, MAX_CANCELS, 0)] - {0} == map[];
  }

  lemma IssuedLate(sddl: string, userSID: string)
    requires userSID != "" && SddlFor(userSID) != sddl
    ensures var p := Next(GivenUp(sddl, userSID), ConnectIssue(Waiting));
            && WaitsOn(p, p.pendingGen) && p.open[p.pending].sddl != p.sddl
            && p.callers == map[] && p.pendingGen in p.gaveUp
            && forall caller :: Next(p, EnsureSddl(caller, userSID)) == p
  {
  }

  lemma {:induction false} AfterWakes(sddl: string, userSID: string, n: nat)
    requires userSID != "" && SddlFor(userSID) != sddl && n < MAX_CANCELS
    ensures After(sddl, Posting(userSID) + Wakes(n)) == Asleep(sddl, userSID, n)
  {
    AfterPosting(sddl, userSID);
    if n == 0 {
      assert Posting(userSID) + [] == Posting(userSID);
    } else {
      AfterWakes(sddl, userSID, n - 1);
      WakeAgain(sddl, userSID, n - 1);
      hide Next, Asleep;
      assert Last(Posting(userSID) + Wakes(n)) == EnsureWake(0);
      assert Front(Posting(userSID) + Wakes(n)) == Posting(userSID) + Wakes(n - 1);
    }
  }

  /** All 100 cancels come before the connect is issued; then the instance waits under the old DACL,
      nobody cancels it, and granting the same user again does nothing. */
  lemma {:induction false} GivingUpLeavesStale(sddl: string, userSID: string)
    requires userSID != "" && SddlFor(userSID) != sddl
    ensures var p := After(sddl, Posting(userSID) + Wakes(MAX_CANCELS) + [ConnectIssue(Waiting)]);
            && WaitsOn(p, p.pendingGen) && p.open[p.pending].sddl != p.sddl
            && p.callers == map[] && p.pendingGen in p.gaveUp
            && forall caller :: Next(p, EnsureSddl(caller, userSID)) == p
  {
    var last := MAX_CANCELS - 1;
    AfterWakes(sddl, userSID, last);
    var all := Posting(userSID) + Wakes(MAX_CANCELS);
    assert Front(all) == Posting(userSID) + Wakes(last) && Last(all) == EnsureWake(0);
    WakeLast(sddl, userSID);
    IssuedLate(sddl, userSID);
    hide Next, Asleep, GivenUp;
    assert Front(all + [ConnectIssue(Waiting)]) == all;
  }
}
