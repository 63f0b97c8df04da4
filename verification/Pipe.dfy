/** The named-pipe server as a protocol: the accept loop, callers of EnsureSDDL and one reader per
    client, interleaved between the points where the mutex is free
    (internal/agent/pipe_windows.go). */
module Pipe {
  import opened Common

  const BASE_SD: string := "D:P(A;;GA;;;SY)(A;;GA;;;BA)"

  function SddlFor(userSID: string): string { BASE_SD + "(A;;FRFW;;;" + userSID + ")" }

  const MAX_CANCELS: nat := 100

  /** The connect call on an instance: not made yet, pending, or finished either way. */
  datatype Conn = NotIssued | Waiting | Accepted | Refused

  /** The kernel object behind an open handle. Handle values are reused after CloseHandle, serials
      never are. */
  datatype Instance = Instance(serial: nat, sddl: string, conn: Conn)

  /** An os.File made of a connected instance; closing it twice closes the handle once. */
  datatype PipeFile = PipeFile(handle: nat, serial: nat, sddl: string, isOpen: bool)

  /** Where the accept loop stands. Comments name what it does next. */
  datatype ServePc =
    | Top                               // lock: read sddl and dirty
    | Read(sddl: string, dirty: bool)   // lock: is there a stale pending instance?
    | Drop(sddl: string)                // lock: pop it
    | DropClose(sddl: string, h: nat)   // close it
    | Lookup(sddl: string)              // lock: is there a pending instance?
    | Create(sddl: string)              // create one
    | Created(h: nat)                   // lock: store it unless dirty
    | Discard(h: nat)                   // disconnect, close, start over
    | Connecting(h: nat)                // wait for the connect goroutine
    | Received(h: nat, ok: bool)        // lock: pop pending
    | Popped(h: nat, ok: bool)          // look at the result
    | Adopt(h: nat)                     // lock: attach the client unless dirty
    | CancelPop(h: nat)                 // shutting down, lock: pop pending
    | CancelClose(h: nat)               // shutting down: close the instance
    | Stopping                          // deferred, lock: let everything go
    | Stopped

  /** A caller of EnsureSDDL asleep in dropPendingLocked: what it captured, and the number of
      cancels so far. serial is the captured instance's. */
  datatype Caller = Caller(h: nat, gen: nat, cancels: nat, serial: nat)

  /** First the fields of PipeServer, then the threads, then the kernel; gaveUp are the generations
      whose caller ran out of cancels. */
  datatype Server = Server(
    sddl: string, pending: nat, pendingGen: nat, client: Option<nat>, connected: bool, dirty: bool,
    serve: ServePc, callers: map<nat, Caller>, readers: set<nat>, closing: set<nat>,
    open: map<nat, Instance>, files: map<nat, PipeFile>, serials: nat, gaveUp: set<nat>)

  /** The accept loop up to posting an instance. */
  datatype Opening =
    | ReadDacl | CheckStale | DropStale | CloseStale | LookupPending
    | CreateInstance(instance: nat) | CreateFails | StorePending

  /** The accept loop from the connect's result on, and its ways out. */
  datatype Ending =
    | Receive | Pop | Branch | DiscardInstance | AdoptClient(file: nat)
    | Shutdown | ShutdownPop | ShutdownClose | StopServing | RunDeferred

  datatype Step =
    | Opens(opening: Opening)
    | Ends(ending: Ending)
    | ConnectIssue(conn: Conn)
    | ConnectComplete(ok: bool)
    | EnsureSddl(caller: nat, userSID: string)
    | EnsureWake(caller: nat)
    | ReaderDone(file: nat)
    | ReaderClose(file: nat)

  // ---------------------------------------------------------------------------------------
  // What single calls do.
  // ---------------------------------------------------------------------------------------

  /** CancelIoEx: finishes a pending connect, and is a no-op before it is issued. */
  function Cancelled(p: Server, h: nat): Server {
    if h in p.open && p.open[h].conn.Waiting? then p.(open := p.open[h := p.open[h].(conn := Refused)]) else p
  }

  function Closed(p: Server, h: nat): Server { p.(open := p.open - {h}) }

  function FileClosed(p: Server, f: nat): Server {
    if f in p.files && p.files[f].isOpen
    then p.(files := p.files[f := p.files[f].(isOpen := false)], open := p.open - {p.files[f].handle})
    else p
  }

  function ClientDropped(p: Server): Server {
    if p.client.Some? then FileClosed(p, p.client.value).(client := None, connected := false)
    else p.(connected := false)
  }

  // ---------------------------------------------------------------------------------------
  // Steps. Each takes the mutex at most once, except that dropPendingLocked lets go of it
  // between EnsureSddl and the EnsureWake steps that follow.
  // ---------------------------------------------------------------------------------------

  predicate OpeningEnabled(p: Server, step: Opening) {
    match step
    case ReadDacl => p.serve.Top?
    case CheckStale => p.serve.Read?
    case DropStale => p.serve.Drop?
    case CloseStale => p.serve.DropClose?
    case LookupPending => p.serve.Lookup?
    case CreateInstance(h) => p.serve.Create? && h != 0 && h !in p.open
    case CreateFails => p.serve.Create?
    case StorePending => p.serve.Created?
  }

  predicate EndingEnabled(p: Server, step: Ending) {
    match step
    case Receive => p.serve.Connecting? && p.serve.h in p.open
                    && (p.open[p.serve.h].conn.Accepted? || p.open[p.serve.h].conn.Refused?)
    case Pop => p.serve.Received?
    case Branch => p.serve.Popped?
    case DiscardInstance => p.serve.Discard?
    case AdoptClient(file) => p.serve.Adopt? && p.serve.h in p.open && file !in p.files
    case Shutdown => p.serve.Connecting?
    case ShutdownPop => p.serve.CancelPop?
    case ShutdownClose => p.serve.CancelClose?
    case StopServing => p.serve.Top? || p.serve.Create?
    case RunDeferred => p.serve.Stopping?
  }

  predicate Enabled(p: Server, step: Step) {
    match step
    case Opens(opening) => OpeningEnabled(p, opening)
    case Ends(ending) => EndingEnabled(p, ending)
    case ConnectIssue(conn) =>
      p.serve.Connecting? && p.serve.h in p.open && p.open[p.serve.h].conn.NotIssued? && !conn.NotIssued?
    case ConnectComplete(_) => p.serve.Connecting? && p.serve.h in p.open && p.open[p.serve.h].conn.Waiting?
    case EnsureSddl(caller, _) => caller !in p.callers
    case EnsureWake(caller) => caller in p.callers
    case ReaderDone(file) => file in p.readers
    case ReaderClose(file) => file in p.closing
  }

  function SetConn(p: Server, h: nat, conn: Conn): Server
    requires h in p.open
  {
    p.(open := p.open[h := p.open[h].(conn := conn)])
  }

  /** A connected instance becomes the client's file, with a reader of its own. */
  function Attached(p: Server, h: nat, file: nat): Server
    requires h in p.open
  {
    p.(files := p.files[file := PipeFile(h, p.open[h].serial, p.open[h].sddl, true)],
       client := Some(file), connected := true, readers := p.readers + {file}, serve := Top)
  }

  /** The last lock of an iteration: drop a client of the old DACL, else newest wins (h stays open
      when the old client goes). */
  function Adopted(p: Server, h: nat, file: nat): Server {
    if p.dirty then Closed(p, h).(serve := Top)
    else
      var q := ClientDropped(p);
      if h in q.open then Attached(q, h, file) else q
  }

  function Ensured(p: Server, caller: nat, userSID: string): Server {
    if userSID == "" || SddlFor(userSID) == p.sddl then p
    else
      var d := ClientDropped(p);
      if p.pending == 0 then Rekeyed(d, SddlFor(userSID))
      else Captured(Rekeyed(Cancelled(d, p.pending), SddlFor(userSID)), caller)
  }

  function Rekeyed(p: Server, sddl: string): Server { p.(sddl := sddl, dirty := true) }

  /** A caller goes to sleep after its first cancel. */
  function Captured(p: Server, caller: nat): Server {
    p.(callers := p.callers[caller :=
      Caller(p.pending, p.pendingGen, 1, if p.pending in p.open then p.open[p.pending].serial else 0)])
  }

  predicate Returns(p: Server, c: Caller) { p.pending == 0 || p.pendingGen != c.gen }

  function Woken(p: Server, caller: nat): Server
    requires caller in p.callers
  {
    var c := p.callers[caller];
    if Returns(p, c) then p.(callers := p.callers - {caller})
    else if c.cancels >= MAX_CANCELS then p.(callers := p.callers - {caller}, gaveUp := p.gaveUp + {c.gen})
    else Cancelled(p, c.h).(callers := p.callers[caller := c.(cancels := c.cancels + 1)])
  }

  function ReaderExited(p: Server, file: nat): Server {
    var q := p.(readers := p.readers - {file}, closing := p.closing + {file});
    if p.client == Some(file) then q.(client := None, connected := false) else q
  }

  function Deferred(p: Server): Server {
    var q := ClientDropped(p).(serve := Stopped);
    if p.pending != 0 then Closed(Cancelled(q, p.pending), p.pending).(pending := 0) else q
  }

  function Opened(p: Server, step: Opening): Server
    requires OpeningEnabled(p, step)
  {
    match step
    case ReadDacl => p.(dirty := false, serve := Read(p.sddl, p.dirty))
    case CheckStale => p.(serve := if p.serve.dirty && p.pending != 0 then Drop(p.serve.sddl) else Lookup(p.serve.sddl))
    case DropStale => p.(pending := 0, serve := DropClose(p.serve.sddl, p.pending))
    case CloseStale => Closed(p, p.serve.h).(serve := Lookup(p.serve.sddl))
    case LookupPending => p.(serve := if p.pending == 0 then Create(p.serve.sddl) else Connecting(p.pending))
    case CreateInstance(h) =>
      p.(open := p.open[h := Instance(p.serials, p.serve.sddl, NotIssued)], serials := p.serials + 1,
         serve := Created(h))
    case CreateFails => p.(serve := Top)
    case StorePending =>
      if p.dirty then p.(serve := Discard(p.serve.h))
      else p.(pendingGen := p.pendingGen + 1, pending := p.serve.h, serve := Connecting(p.serve.h))
  }

  function Ended(p: Server, step: Ending): Server
    requires EndingEnabled(p, step)
  {
    match step
    case Receive => p.(serve := Received(p.serve.h, p.open[p.serve.h].conn.Accepted?))
    case Pop => p.(pending := 0, serve := Popped(p.serve.h, p.serve.ok))
    case Branch => p.(serve := if p.serve.ok then Adopt(p.serve.h) else Discard(p.serve.h))
    case DiscardInstance => Closed(p, p.serve.h).(serve := Top)
    case AdoptClient(file) => Adopted(p, p.serve.h, file)
    case Shutdown => Cancelled(p, p.serve.h).(serve := CancelPop(p.serve.h))
    case ShutdownPop => p.(pending := 0, serve := CancelClose(p.serve.h))
    case ShutdownClose => Closed(p, p.serve.h).(serve := Stopping)
    case StopServing => p.(serve := Stopping)
    case RunDeferred => Deferred(p)
  }

  function Next(p: Server, step: Step): Server {
    if !Enabled(p, step) then p
    else
      match step
      case Opens(opening) => Opened(p, opening)
      case Ends(ending) => Ended(p, ending)
      case ConnectIssue(conn) => SetConn(p, p.serve.h, conn)
      case ConnectComplete(ok) => SetConn(p, p.serve.h, if ok then Accepted else Refused)
      case EnsureSddl(caller, userSID) => Ensured(p, caller, userSID)
      case EnsureWake(caller) => Woken(p, caller)
      case ReaderDone(file) => ReaderExited(p, file)
      case ReaderClose(file) => FileClosed(p, file).(closing := p.closing - {file})
  }

  function Init(sddl: string): Server {
    Server(sddl, 0, 0, None, false, false, Top, map[], {}, {}, map[], map[], 0, {})
  }

  function After(sddl: string, steps: seq<Step>): Server {
    if steps == [] then Init(sddl) else Next(After(sddl, Front(steps)), Last(steps))
  }

  // ---------------------------------------------------------------------------------------
  // The invariant.
  // ---------------------------------------------------------------------------------------

  /** The handle the accept loop is responsible for. */
  function Held(pc: ServePc): Option<nat> {
    match pc
    case Created(h) => Some(h)
    case Discard(h) => Some(h)
    case Connecting(h) => Some(h)
    case Received(h, _) => Some(h)
    case Popped(h, _) => Some(h)
    case Adopt(h) => Some(h)
    case CancelPop(h) => Some(h)
    case CancelClose(h) => Some(h)
    case _ => None
  }

  /** Exactly while the loop waits on it, the instance is pending. */
  function Posted(pc: ServePc): nat {
    match pc
    case Connecting(h) => h
    case Received(h, _) => h
    case CancelPop(h) => h
    case _ => 0
  }

  function KnownSddl(pc: ServePc): Option<string> {
    match pc
    case Read(sddl, _) => Some(sddl)
    case Lookup(sddl) => Some(sddl)
    case Create(sddl) => Some(sddl)
    case _ => None
  }

  ghost predicate ServeInv(serve: ServePc, pending: nat, dirty: bool, sddl: string, open: map<nat, Instance>) {
    && !serve.Drop? && !serve.DropClose?
    && pending == Posted(serve)
    && (KnownSddl(serve).Some? && !dirty ==> KnownSddl(serve).value == sddl)
    && (Held(serve).Some? ==>
          var h := Held(serve).value;
          && h != 0 && h in open
          && (!dirty ==> open[h].sddl == sddl))
  }

  ghost predicate ClientInv(connected: bool, client: Option<nat>, files: map<nat, PipeFile>, sddl: string,
                            readers: set<nat>) {
    && (connected <==> client.Some?)
    && (client.Some? ==>
          var f := client.value;
          f in files && files[f].isOpen && files[f].sddl == sddl && f in readers)
  }

  ghost predicate ThreadInv(readers: set<nat>, closing: set<nat>, files: map<nat, PipeFile>) {
    readers <= files.Keys && closing <= files.Keys && readers !! closing
  }

  /** Open files: the client's, or one whose reader is about to close it. */
  ghost predicate FileInv(files: map<nat, PipeFile>, client: Option<nat>, closing: set<nat>) {
    forall f :: f in files && files[f].isOpen ==> client == Some(f) || f in closing
  }

  /** Every open handle has one owner: the accept loop or one open file. */
  ghost predicate HandleInv(open: map<nat, Instance>, files: map<nat, PipeFile>, held: Option<nat>) {
    && (forall f :: f in files && files[f].isOpen ==>
          && files[f].handle in open
          && open[files[f].handle].serial == files[f].serial
          && held != Some(files[f].handle))
    && (forall f, g :: f in files && g in files && f != g && files[f].isOpen && files[g].isOpen
                       ==> files[f].handle != files[g].handle)
    && (forall h :: h in open ==> held == Some(h) || exists f :: f in files && files[f].isOpen && files[f].handle == h)
  }

  ghost predicate SerialInv(open: map<nat, Instance>, serials: nat) {
    && (forall h :: h in open ==> open[h].serial < serials)
    && (forall h, k :: h in open && k in open && h != k ==> open[h].serial != open[k].serial)
  }

  ghost predicate CallerInv(callers: map<nat, Caller>, pending: nat, pendingGen: nat, open: map<nat, Instance>) {
    forall t :: t in callers ==>
      var c := callers[t];
      && c.gen <= pendingGen && 1 <= c.cancels <= MAX_CANCELS
      && (pending != 0 && pendingGen == c.gen ==> c.h == pending && c.h in open && open[c.h].serial == c.serial)
  }

  ghost predicate BeingCancelled(callers: map<nat, Caller>, gen: nat) {
    exists t :: t in callers && callers[t].gen == gen
  }

  /** An instance waiting under an old DACL is being cancelled. */
  ghost predicate StaleInv(p: Server) {
    p.pending != 0 && p.pending in p.open && p.open[p.pending].sddl != p.sddl
    ==> p.pendingGen in p.gaveUp || BeingCancelled(p.callers, p.pendingGen)
  }

  ghost predicate Inv(p: Server) {
    && ServeInv(p.serve, p.pending, p.dirty, p.sddl, p.open)
    && ClientInv(p.connected, p.client, p.files, p.sddl, p.readers)
    && ThreadInv(p.readers, p.closing, p.files)
    && FileInv(p.files, p.client, p.closing)
    && HandleInv(p.open, p.files, Held(p.serve))
    && SerialInv(p.open, p.serials)
    && CallerInv(p.callers, p.pending, p.pendingGen, p.open)
    && StaleInv(p)
    && (p.serve.Stopped? ==> p.client == None)
  }

  // ---------------------------------------------------------------------------------------
  // Every step keeps it.
  // ---------------------------------------------------------------------------------------

  lemma HandleCreated(open: map<nat, Instance>, files: map<nat, PipeFile>, h: nat, i: Instance)
    requires HandleInv(open, files, None) && h !in open
    ensures HandleInv(open[h := i], files, Some(h))
  {
  }

  lemma HandleClosed(open: map<nat, Instance>, files: map<nat, PipeFile>, h: nat)
    requires HandleInv(open, files, Some(h))
    ensures HandleInv(open - {h}, files, None)
  {
  }

  /** Only the state of a connect call changes. */
  lemma HandleRelabelled(open: map<nat, Instance>, files: map<nat, PipeFile>, held: Option<nat>, h: nat, conn: Conn)
    requires HandleInv(open, files, held) && h in open
    ensures HandleInv(open[h := open[h].(conn := conn)], files, held)
  {
  }

  lemma HandleFileClosed(open: map<nat, Instance>, files: map<nat, PipeFile>, held: Option<nat>, f: nat)
    requires HandleInv(open, files, held) && f in files && files[f].isOpen
    ensures HandleInv(open - {files[f].handle}, files[f := files[f].(isOpen := false)], held)
  {
    var open', files' := open - {files[f].handle}, files[f := files[f].(isOpen := false)];
    forall h | h in open' && held != Some(h)
      ensures exists g :: g in files' && files'[g].isOpen && files'[g].handle == h
    {
      var g :| g in files && files[g].isOpen && files[g].handle == h;
      assert g in files' && files'[g].isOpen && files'[g].handle == h;
    }
  }

  lemma HandleAdopted(open: map<nat, Instance>, files: map<nat, PipeFile>, h: nat, file: nat, pf: PipeFile)
    requires HandleInv(open, files, Some(h)) && h in open && file !in files
    requires pf == PipeFile(h, open[h].serial, open[h].sddl, true)
    ensures HandleInv(open, files[file := pf], None)
  {
    var files' := files[file := pf];
    forall k | k in open ensures exists g :: g in files' && files'[g].isOpen && files'[g].handle == k {
      if k == h {
        assert files'[file].isOpen;
      } else {
        var g :| g in files && files[g].isOpen && files[g].handle == k;
        assert g in files' && files'[g].isOpen && files'[g].handle == k;
      }
    }
  }

  lemma ServeCreateInv(p: Server, h: nat)
    requires Inv(p) && OpeningEnabled(p, CreateInstance(h))
    ensures Inv(Opened(p, CreateInstance(h)))
  {
    HandleCreated(p.open, p.files, h, Instance(p.serials, p.serve.sddl, NotIssued));
  }

  lemma ClosedInv(p: Server, pc: ServePc)
    requires Inv(p) && Held(p.serve).Some? && p.pending == 0
    requires pc.Top? || pc.Stopping?
    ensures Inv(Closed(p, Held(p.serve).value).(serve := pc))
  {
    HandleClosed(p.open, p.files, Held(p.serve).value);
  }

  lemma FileClosedInv(p: Server, f: nat)
    requires Inv(p) && p.client != Some(f)
    ensures Inv(FileClosed(p, f))
  {
    if f in p.files && p.files[f].isOpen {
      HandleFileClosed(p.open, p.files, Held(p.serve), f);
    }
  }

  lemma ClientDroppedInv(p: Server)
    requires Inv(p)
    ensures Inv(ClientDropped(p)) && ClientDropped(p).client == None
  {
    if p.client.Some? {
      HandleFileClosed(p.open, p.files, Held(p.serve), p.client.value);
    }
  }

  lemma SetConnInv(p: Server, h: nat, conn: Conn)
    requires Inv(p) && h in p.open
    ensures Inv(SetConn(p, h, conn))
  {
    HandleRelabelled(p.open, p.files, Held(p.serve), h, conn);
  }

  lemma CancelledInv(p: Server, h: nat)
    requires Inv(p)
    ensures Inv(Cancelled(p, h))
  {
    if h in p.open {
      SetConnInv(p, h, Refused);
    }
  }

  /** The accept loop moves on holding the same handle. */
  lemma MovedInv(p: Server, pc: ServePc)
    requires Inv(p) && Held(pc) == Held(p.serve) && p.pending == Posted(pc) && !pc.Drop? && !pc.DropClose?
    requires (KnownSddl(pc).Some? ==> KnownSddl(pc) == KnownSddl(p.serve)) && (pc.Stopped? ==> p.client == None)
    ensures Inv(p.(serve := pc))
  {
  }

  lemma ServeReadInv(p: Server)
    requires Inv(p) && p.serve.Top?
    ensures Inv(p.(dirty := false, serve := Read(p.sddl, p.dirty)))
  {
  }

  lemma ServeStoreInv(p: Server)
    requires Inv(p) && p.serve.Created? && !p.dirty
    ensures Inv(p.(pendingGen := p.pendingGen + 1, pending := p.serve.h, serve := Connecting(p.serve.h)))
  {
  }

  /** Popping the pending instance: callers waiting on it will return. */
  lemma PoppedInv(p: Server, pc: ServePc)
    requires Inv(p) && Held(pc) == Held(p.serve) && Posted(pc) == 0 && KnownSddl(pc).None?
    requires !pc.DropClose? && !pc.Drop? && !pc.Stopped?
    ensures Inv(p.(pending := 0, serve := pc))
  {
  }

  lemma AttachedInv(p: Server, h: nat, file: nat)
    requires Inv(p) && p.serve == Adopt(h) && !p.dirty && p.client == None && file !in p.files
    ensures h in p.open && Inv(Attached(p, h, file))
  {
    HandleAdopted(p.open, p.files, h, file, PipeFile(h, p.open[h].serial, p.open[h].sddl, true));
  }

  /** A new DACL with no client attached and nobody to cancel. */
  lemma RekeyedInv(p: Server, sddl: string)
    requires Inv(p) && p.client == None && p.pending == 0
    ensures Inv(Rekeyed(p, sddl))
  {
  }

  /** A new DACL, and a caller that cancels the pending instance. */
  lemma CapturedInv(p: Server, sddl: string, caller: nat)
    requires Inv(p) && p.client == None && p.pending != 0 && caller !in p.callers
    ensures Inv(Captured(Rekeyed(p, sddl), caller))
  {
    var callers := Captured(Rekeyed(p, sddl), caller).callers;
    assert callers[caller].gen == p.pendingGen;
    assert BeingCancelled(callers, p.pendingGen);
  }

  lemma EnsuredInv(p: Server, caller: nat, userSID: string)
    requires Inv(p) && caller !in p.callers
    ensures Inv(Ensured(p, caller, userSID))
  {
    hide Inv;
    if userSID != "" && SddlFor(userSID) != p.sddl {
      var d, sddl := ClientDropped(p), SddlFor(userSID);
      ClientDroppedInv(p);
      if p.pending == 0 {
        RekeyedInv(d, sddl);
      } else {
        CancelledInv(d, p.pending);
        CapturedInv(Cancelled(d, p.pending), sddl, caller);
      }
    }
  }

  /** The other callers remain. */
  lemma StillBeingCancelled(callers: map<nat, Caller>, caller: nat, gen: nat)
    requires caller in callers && callers[caller].gen != gen && BeingCancelled(callers, gen)
    ensures BeingCancelled(callers - {caller}, gen)
  {
    var t :| t in callers && callers[t].gen == gen;
    assert t in callers - {caller};
  }

  lemma CancelledAgain(p: Server, caller: nat)
    requires Inv(p) && caller in p.callers && p.callers[caller].cancels < MAX_CANCELS
    ensures Inv(p.(callers := p.callers[caller := p.callers[caller].(cancels := p.callers[caller].cancels + 1)]))
  {
    var callers := p.callers[caller := p.callers[caller].(cancels := p.callers[caller].cancels + 1)];
    if BeingCancelled(p.callers, p.pendingGen) {
      var t :| t in p.callers && p.callers[t].gen == p.pendingGen;
      assert t in callers && callers[t].gen == p.pendingGen;
    }
  }

  lemma ReturnedInv(p: Server, caller: nat)
    requires Inv(p) && caller in p.callers && Returns(p, p.callers[caller])
    ensures Inv(p.(callers := p.callers - {caller}))
  {
    if p.pending != 0 && BeingCancelled(p.callers, p.pendingGen) {
      StillBeingCancelled(p.callers, caller, p.pendingGen);
    }
  }

  lemma GivenUpInv(p: Server, caller: nat)
    requires Inv(p) && caller in p.callers && !Returns(p, p.callers[caller])
    ensures Inv(p.(callers := p.callers - {caller}, gaveUp := p.gaveUp + {p.callers[caller].gen}))
  {
  }

  lemma WokenInv(p: Server, caller: nat)
    requires Inv(p) && caller in p.callers
    ensures Inv(Woken(p, caller))
  {
    hide Inv;
    var c := p.callers[caller];
    if Returns(p, c) {
      ReturnedInv(p, caller);
    } else if c.cancels >= MAX_CANCELS {
      GivenUpInv(p, caller);
    } else {
      CancelledInv(p, c.h);
      CancelledAgain(Cancelled(p, c.h), caller);
    }
  }

  lemma ReaderExitedInv(p: Server, file: nat)
    requires Inv(p) && file in p.readers
    ensures Inv(ReaderExited(p, file))
  {
  }

  lemma ReaderCloseInv(p: Server, file: nat)
    requires Inv(p) && file in p.closing
    ensures Inv(FileClosed(p, file).(closing := p.closing - {file}))
  {
    FileClosedInv(p, file);
  }

  lemma OpenedInv(p: Server, step: Opening)
    requires Inv(p) && OpeningEnabled(p, step)
    ensures Inv(Opened(p, step))
  {
    assert ServeInv(p.serve, p.pending, p.dirty, p.sddl, p.open);
    hide Inv;
    match step
    case ReadDacl => ServeReadInv(p);
    case CheckStale => MovedInv(p, Lookup(p.serve.sddl));
    case LookupPending => MovedInv(p, Create(p.serve.sddl));
    case CreateInstance(h) => ServeCreateInv(p, h);
    case CreateFails => MovedInv(p, Top);
    case StorePending =>
      if p.dirty {
        MovedInv(p, Discard(p.serve.h));
      } else {
        ServeStoreInv(p);
      }
    case _ =>
  }

  lemma ShutdownInv(p: Server)
    requires Inv(p) && p.serve.Connecting?
    ensures Inv(Cancelled(p, p.serve.h).(serve := CancelPop(p.serve.h)))
  {
    assert p.pending == p.serve.h;
    hide Inv;
    CancelledInv(p, p.serve.h);
    MovedInv(Cancelled(p, p.serve.h), CancelPop(p.serve.h));
  }

  lemma AdoptedInv(p: Server, file: nat)
    requires Inv(p) && p.serve.Adopt? && file !in p.files
    ensures Inv(Adopted(p, p.serve.h, file))
  {
    assert ServeInv(p.serve, p.pending, p.dirty, p.sddl, p.open);
    hide Inv;
    if p.dirty {
      ClosedInv(p, Top);
    } else {
      ClientDroppedInv(p);
      AttachedInv(ClientDropped(p), p.serve.h, file);
    }
  }

  lemma DeferredInv(p: Server)
    requires Inv(p) && p.serve.Stopping?
    ensures Inv(Deferred(p))
  {
    assert p.pending == 0;
    hide Inv;
    ClientDroppedInv(p);
    MovedInv(ClientDropped(p), Stopped);
  }

  lemma EndedInv(p: Server, step: Ending)
    requires Inv(p) && EndingEnabled(p, step)
    ensures Inv(Ended(p, step))
  {
    assert ServeInv(p.serve, p.pending, p.dirty, p.sddl, p.open);
    hide Inv;
    match step
    case Receive => MovedInv(p, Received(p.serve.h, p.open[p.serve.h].conn.Accepted?));
    case Pop => PoppedInv(p, Popped(p.serve.h, p.serve.ok));
    case Branch => MovedInv(p, if p.serve.ok then Adopt(p.serve.h) else Discard(p.serve.h));
    case DiscardInstance => ClosedInv(p, Top);
    case AdoptClient(file) => AdoptedInv(p, file);
    case Shutdown => ShutdownInv(p);
    case ShutdownPop => PoppedInv(p, CancelClose(p.serve.h));
    case ShutdownClose => ClosedInv(p, Stopping);
    case StopServing => MovedInv(p, Stopping);
    case RunDeferred => DeferredInv(p);
  }

  lemma {:induction false} NextInv(p: Server, step: Step)
    requires Inv(p)
    ensures Inv(Next(p, step))
  {
    hide Inv;
    if Enabled(p, step) {
      match step
      case Opens(opening) => OpenedInv(p, opening);
      case Ends(ending) => EndedInv(p, ending);
      case ConnectIssue(conn) => SetConnInv(p, p.serve.h, conn);
      case ConnectComplete(ok) => SetConnInv(p, p.serve.h, if ok then Accepted else Refused);
      case EnsureSddl(caller, userSID) => EnsuredInv(p, caller, userSID);
      case EnsureWake(caller) => WokenInv(p, caller);
      case ReaderDone(file) => ReaderExitedInv(p, file);
      case ReaderClose(file) => ReaderCloseInv(p, file);
    }
  }

  lemma {:induction false} Always(sddl: string, steps: seq<Step>)
    ensures Inv(After(sddl, steps))
  {
    if steps != [] {
      Always(sddl, Front(steps));
      NextInv(After(sddl, Front(steps)), Last(steps));
    }
  }

  // ---------------------------------------------------------------------------------------
  // What it means.
  // ---------------------------------------------------------------------------------------

  /** MAIN: whenever the mutex is free, connected says whether a client is attached, and an attached
      client came in through an instance created under the current DACL. */
  lemma {:induction false} ClientMatchesDacl(sddl: string, steps: seq<Step>)
    ensures var p := After(sddl, steps);
            && (p.connected <==> p.client.Some?)
            && (p.client.Some? ==>
                  var f := p.client.value;
                  f in p.files && p.files[f].isOpen && p.files[f].sddl == p.sddl)
  {
    Always(sddl, steps);
  }

  /** MAIN: newest wins. A client that connected is attached, with a reader of its own, and the one before
      it closed, unless the DACL changed meanwhile: then it is closed and nothing else changes. */
  lemma {:induction false} NewestWins(sddl: string, steps: seq<Step>, file: nat)
    requires Enabled(After(sddl, steps), Ends(AdoptClient(file)))
    ensures var p := After(sddl, steps);
            var q, h := Next(p, Ends(AdoptClient(file))), p.serve.h;
            && q.serve.Top? && q.sddl == p.sddl && q.dirty == p.dirty
            && (!p.dirty ==>
                  && q.client == Some(file) && q.connected && file in q.readers
                  && file in q.files && q.files[file].isOpen && q.files[file].handle == h && h in q.open
                  && q.open[h] == p.open[h]
                  && q.files[file].sddl == q.sddl && q.files[file].serial == q.open[h].serial
                  && (p.client.Some? ==> p.client.value in q.files && !q.files[p.client.value].isOpen
                                         && p.files[p.client.value].handle !in q.open))
            && (p.dirty ==>
                  && h !in q.open && q.client == p.client && q.connected == p.connected && q.files == p.files)
  {
    Always(sddl, steps);
  }

  /** MAIN: granting somebody new drops the attached client and cancels the wait for the next one; granting
      the same user again, or nobody, does nothing. */
  lemma {:induction false} GrantDropsOthers(sddl: string, steps: seq<Step>, caller: nat, userSID: string)
    requires caller !in After(sddl, steps).callers
    ensures var p := After(sddl, steps);
            var q := Next(p, EnsureSddl(caller, userSID));
            if userSID == "" || SddlFor(userSID) == p.sddl then q == p
            else
              && q.sddl == SddlFor(userSID) && q.dirty && !q.connected && q.client == None && q.serve == p.serve
              && (p.client.Some? ==> p.client.value in q.files && !q.files[p.client.value].isOpen
                                     && p.files[p.client.value].handle !in q.open)
              && (p.pending != 0 ==>
                    && q.pending == p.pending && q.pending in q.open && !q.open[q.pending].conn.Waiting?
                    && caller in q.callers && q.callers[caller].gen == q.pendingGen)
  {
    Always(sddl, steps);
  }

  /** A DACL names its user. */
  lemma {:induction false} SddlNamesUser(a: string, b: string)
    ensures SddlFor(a) == SddlFor(b) ==> a == b
  {
    var prefix := BASE_SD + "(A;;FRFW;;;";
    assert SddlFor(a)[|prefix|..|SddlFor(a)| - 1] == a;
    assert SddlFor(b)[|prefix|..|SddlFor(b)| - 1] == b;
  }

  /** MAIN: every repeated cancel of EnsureSDDL hits an open handle, and it is the pending instance
      the caller captured: not a closed handle, nor another instance under a reused value. */
  lemma {:induction false} CancelsHitThePendingInstance(sddl: string, steps: seq<Step>, caller: nat)
    requires var p := After(sddl, steps); caller in p.callers && !Returns(p, p.callers[caller])
    ensures var p := After(sddl, steps); var c := p.callers[caller];
            c.h == p.pending && c.h in p.open && p.open[c.h].serial == c.serial
  {
    Always(sddl, steps);
  }

  /** MAIN: an instance still waiting under an old DACL is being cancelled, unless its caller used up
      its cancels; and the loop has been told to recreate it. */
  lemma {:induction false} StaleInstanceIsBeingCancelled(sddl: string, steps: seq<Step>)
    requires var p := After(sddl, steps);
             p.pending != 0 && p.pending in p.open && p.open[p.pending].sddl != p.sddl
    ensures var p := After(sddl, steps);
            && p.dirty
            && (p.pendingGen in p.gaveUp || exists t :: t in p.callers && p.callers[t].gen == p.pendingGen)
  {
    Always(sddl, steps);
  }

  /** MAIN: a reader that is not the current client's clears nothing when it ends and closes no
      handle: its own was closed when it was superseded. */
  lemma {:induction false} SupersededReaderIsHarmless(sddl: string, steps: seq<Step>, file: nat)
    requires file in After(sddl, steps).readers && After(sddl, steps).client != Some(file)
    ensures var p := After(sddl, steps);
            var q := Next(p, ReaderDone(file));
            q.client == p.client && q.connected == p.connected && q.open == p.open
    ensures var p := After(sddl, steps);
            var q := Next(Next(p, ReaderDone(file)), ReaderClose(file));
            q.client == p.client && q.connected == p.connected && q.open == p.open
  {
    Always(sddl, steps);
    var p := After(sddl, steps);
    assert !p.files[file].isOpen;
    assert Next(p, ReaderDone(file)) == p.(readers := p.readers - {file}, closing := p.closing + {file});
  }

  /** MAIN: whatever ran since a reader let go of the mutex, a newer client's arrival included, its
      late Close clears no state, does not touch the accept loop's handle, and leaves every other
      open file its own open instance. */
  lemma {:induction false} LateCloseIsHarmless(sddl: string, steps: seq<Step>, file: nat)
    requires file in After(sddl, steps).closing
    ensures var p := After(sddl, steps);
            var q := Next(p, ReaderClose(file));
            && p.client != Some(file)
            && q.client == p.client && q.connected == p.connected
            && (Held(p.serve).Some? ==>
                  var h := Held(p.serve).value; h in p.open && h in q.open && q.open[h] == p.open[h])
            && (forall f :: f in p.files && f != file && p.files[f].isOpen ==>
                  && f in q.files && q.files[f] == p.files[f]
                  && p.files[f].handle in q.open && q.open[p.files[f].handle].serial == p.files[f].serial)
            && (file in q.files && !q.files[file].isOpen)
  {
    Always(sddl, steps);
  }

  /** No handle leaks and none is used closed: every open handle is held by the accept loop or by
      one open file, and the loop's own handle is open; once Serve has returned and the last
      readers are done, nothing is open. */
  lemma {:induction false} HandlesAreAccountedFor(sddl: string, steps: seq<Step>)
    ensures var p := After(sddl, steps);
            && (Held(p.serve).Some? ==> Held(p.serve).value in p.open)
            && (forall h :: h in p.open ==>
                  Held(p.serve) == Some(h) || exists f :: f in p.files && p.files[f].isOpen && p.files[f].handle == h)
            && (p.serve.Stopped? && p.closing == {} ==> p.open == map[])
  {
    Always(sddl, steps);
  }

  /** The loop never finds a stale instance pending at its head: that branch cannot run. */
  lemma {:induction false} StaleBranchIsDead(sddl: string, steps: seq<Step>)
    ensures After(sddl, steps).serve.Read? ==> After(sddl, steps).pending == 0
    ensures !After(sddl, steps).serve.Drop?
  {
    Always(sddl, steps);
  }

  // ---------------------------------------------------------------------------------------
  // What a grant means for the client seen after it.
  // ---------------------------------------------------------------------------------------

  /** As long as no other user is granted the pipe, an attached client came in under the DACL of the
      user just granted. */
  lemma {:induction false} ClientIsOfGrantedUser(sddl: string, steps: seq<Step>, caller: nat, userSID: string,
                                                 more: seq<Step>)
    requires userSID != "" && caller !in After(sddl, steps).callers
    requires forall s :: s in more && s.EnsureSddl? ==> s.userSID == userSID
    ensures var p := After(sddl, steps + [EnsureSddl(caller, userSID)] + more);
            && p.sddl == SddlFor(userSID)
            && (p.connected ==>
                  && p.client.Some? && p.client.value in p.files
                  && p.files[p.client.value].sddl == SddlFor(userSID)
                  && forall other :: other != userSID ==> p.files[p.client.value].sddl != SddlFor(other))
  {
    var granted := steps + [EnsureSddl(caller, userSID)];
    Always(sddl, granted + more);
    forall other | other != userSID ensures SddlFor(userSID) != SddlFor(other) {
      SddlNamesUser(userSID, other);
    }
    if more == [] {
      assert Front(granted) == steps && granted + [] == granted;
    } else {
      assert Last(more) in more;
      ClientIsOfGrantedUser(sddl, steps, caller, userSID, Front(more));
      assert Front(granted + more) == granted + Front(more);
      SameSddl(After(sddl, granted + Front(more)), Last(more), userSID);
    }
  }

  lemma {:induction false} SameSddl(p: Server, step: Step, userSID: string)
    requires p.sddl == SddlFor(userSID) && (step.EnsureSddl? ==> step.userSID == userSID)
    ensures Next(p, step).sddl == p.sddl
  {
    ClientDroppedSddl(p);
    hide ClientDropped;
    if Enabled(p, step) {
      match step
      case Opens(opening) => OpenedSddl(p, opening);
      case Ends(ending) => EndedSddl(p, ending);
      case _ =>
    }
  }

  lemma ClientDroppedSddl(p: Server)
    ensures ClientDropped(p).sddl == p.sddl
  {
  }

  lemma OpenedSddl(p: Server, step: Opening)
    requires OpeningEnabled(p, step)
    ensures Opened(p, step).sddl == p.sddl
  {
  }

  lemma EndedSddl(p: Server, step: Ending)
    requires EndingEnabled(p, step)
    ensures Ended(p, step).sddl == p.sddl
  {
    ClientDroppedSddl(p);
    hide ClientDropped;
  }
}
