/** That the pipe server serves: from wherever its loop stands, the next client is let in under the
    DACL then in force (internal/agent/pipe_windows.go, Serve). */
module PipeAccepts {
  import opened Common
  import opened Pipe

  /** Taking steps one after the other. */
  function Onward(p: Server, more: seq<Step>): Server
    decreases |more|
  {
    if more == [] then p else Onward(Next(p, more[0]), more[1..])
  }

  lemma {:induction false} AfterOnward(sddl: string, steps: seq<Step>, more: seq<Step>)
    ensures After(sddl, steps + more) == Onward(After(sddl, steps), more)
    decreases |more|
  {
    if more == [] {
      assert steps + more == steps;
    } else {
      AfterOnward(sddl, steps + [more[0]], more[1..]);
      assert Front(steps + [more[0]]) == steps;
      assert steps + [more[0]] + more[1..] == steps + more;
    }
  }

  lemma OnwardOne(p: Server, step: Step, more: seq<Step>)
    ensures Onward(p, [step] + more) == Onward(Next(p, step), more)
  {
    assert ([step] + more)[1..] == more;
  }

  // From the head of the loop to the head of the loop.

  /** Post an instance. */
  function Posting(h: nat): seq<Step> {
    [Opens(ReadDacl)] + ([Opens(CheckStale)] + ([Opens(LookupPending)]
    + ([Opens(CreateInstance(h))] + ([Opens(StorePending)] + []))))
  }

  /** A client connects to it and is adopted. */
  function Adopting(file: nat): seq<Step> {
    [ConnectIssue(Accepted)] + ([Ends(Receive)] + ([Ends(Pop)] + ([Ends(Branch)] + ([Ends(AdoptClient(file))] + []))))
  }

  /** Its connect was refused, by a cancel say: it is thrown away. */
  function Discarding(): seq<Step> {
    [Ends(Receive)] + ([Ends(Pop)] + ([Ends(Branch)] + ([Ends(DiscardInstance)] + [])))
  }

  lemma {:induction false} Posts(p: Server, h: nat)
    requires p.serve.Top? && p.pending == 0 && h != 0 && h !in p.open
    ensures Onward(p, Posting(h)) ==
            p.(dirty := false, serve := Connecting(h), pending := h, pendingGen := p.pendingGen + 1,
               open := p.open[h := Instance(p.serials, p.sddl, NotIssued)], serials := p.serials + 1)
  {
    var p1 := p.(dirty := false, serve := Read(p.sddl, p.dirty));
    var p2 := p1.(serve := Lookup(p.sddl));
    var p3 := p2.(serve := Create(p.sddl));
    var p4 := p3.(serve := Created(h), open := p.open[h := Instance(p.serials, p.sddl, NotIssued)],
                  serials := p.serials + 1);
    assert Next(p, Opens(ReadDacl)) == p1 && Next(p1, Opens(CheckStale)) == p2 && Next(p2, Opens(LookupPending)) == p3;
    assert Next(p3, Opens(CreateInstance(h))) == p4;
    hide Next;
    OnwardOne(p, Opens(ReadDacl),
              [Opens(CheckStale)] + ([Opens(LookupPending)]
              + ([Opens(CreateInstance(h))] + ([Opens(StorePending)] + []))));
    OnwardOne(p1, Opens(CheckStale),
              [Opens(LookupPending)] + ([Opens(CreateInstance(h))] + ([Opens(StorePending)] + [])));
    OnwardOne(p2, Opens(LookupPending), [Opens(CreateInstance(h))] + ([Opens(StorePending)] + []));
    OnwardOne(p3, Opens(CreateInstance(h)), [Opens(StorePending)] + []);
    OnwardOne(p4, Opens(StorePending), []);
    Stored(p4, h);
  }

  lemma Stored(p: Server, h: nat)
    requires p.serve == Created(h) && !p.dirty
    ensures Next(p, Opens(StorePending)) == p.(pendingGen := p.pendingGen + 1, pending := h, serve := Connecting(h))
  {
  }

  /** A client has connected to instance h and the loop is about to take the lock for the last time. */
  function Met(p: Server, h: nat): Server
    requires h in p.open
  {
    p.(serve := Adopt(h), pending := 0, open := p.open[h := p.open[h].(conn := Accepted)])
  }

  /** Up to the last lock. */
  lemma {:induction false} Connects(p: Server, file: nat)
    requires p.serve.Connecting? && p.pending == p.serve.h && p.serve.h in p.open
    requires p.open[p.serve.h].conn.NotIssued? && file !in p.files
    ensures var h := p.serve.h;
            && Onward(p, Adopting(file)) == Next(Met(p, h), Ends(AdoptClient(file)))
            && Enabled(Met(p, h), Ends(AdoptClient(file)))
  {
    var h := p.serve.h;
    var p1 := p.(open := p.open[h := p.open[h].(conn := Accepted)]);
    var p2 := p1.(serve := Received(h, true));
    var p3 := p2.(serve := Popped(h, true), pending := 0);
    var p4 := p3.(serve := Adopt(h));
    assert Next(p, ConnectIssue(Accepted)) == p1 && Next(p1, Ends(Receive)) == p2 && Next(p2, Ends(Pop)) == p3;
    assert Next(p3, Ends(Branch)) == p4;
    hide Next;
    OnwardOne(p, ConnectIssue(Accepted),
              [Ends(Receive)] + ([Ends(Pop)] + ([Ends(Branch)] + ([Ends(AdoptClient(file))] + []))));
    OnwardOne(p1, Ends(Receive), [Ends(Pop)] + ([Ends(Branch)] + ([Ends(AdoptClient(file))] + [])));
    OnwardOne(p2, Ends(Pop), [Ends(Branch)] + ([Ends(AdoptClient(file))] + []));
    OnwardOne(p3, Ends(Branch), [Ends(AdoptClient(file))] + []);
    OnwardOne(p4, Ends(AdoptClient(file)), []);
  }

  lemma {:induction false} Discards(p: Server)
    requires p.serve.Connecting? && p.pending == p.serve.h && p.serve.h in p.open && p.open[p.serve.h].conn.Refused?
    ensures Onward(p, Discarding()) == p.(serve := Top, pending := 0, open := p.open - {p.serve.h})
  {
    var h := p.serve.h;
    var p1 := p.(serve := Received(h, false));
    var p2 := p1.(serve := Popped(h, false), pending := 0);
    var p3 := p2.(serve := Discard(h));
    assert Next(p, Ends(Receive)) == p1 && Next(p1, Ends(Pop)) == p2 && Next(p2, Ends(Branch)) == p3;
    assert Next(p3, Ends(DiscardInstance)) == p.(serve := Top, pending := 0, open := p.open - {h});
    hide Next;
    OnwardOne(p, Ends(Receive), [Ends(Pop)] + ([Ends(Branch)] + ([Ends(DiscardInstance)] + [])));
    OnwardOne(p1, Ends(Pop), [Ends(Branch)] + ([Ends(DiscardInstance)] + []));
    OnwardOne(p2, Ends(Branch), [Ends(DiscardInstance)] + []);
    OnwardOne(p3, Ends(DiscardInstance), []);
  }

  /** The client that just came in under the DACL in force. */
  ghost predicate LetIn(p: Server, h: nat, file: nat) {
    && p.client == Some(file) && p.connected && file in p.readers
    && file in p.files && p.files[file].isOpen && p.files[file].handle == h && h in p.open
    && p.files[file].sddl == p.sddl && p.serve.Top?
  }

  /** MAIN: from every reachable state at the head of the loop, whatever happened before, an instance is
      posted under the DACL in force, and a client that connects to it is attached and takes over from
      any other. */
  lemma {:induction false} NextClientIsLetIn(sddl: string, steps: seq<Step>, h: nat, file: nat)
    requires var p := After(sddl, steps); p.serve.Top? && h != 0 && h !in p.open && file !in p.files
    ensures var p, q := After(sddl, steps), After(sddl, steps + Posting(h) + Adopting(file));
            && LetIn(q, h, file) && q.sddl == p.sddl
            && (p.client.Some? ==> p.client.value in q.files && !q.files[p.client.value].isOpen)
  {
    var p := After(sddl, steps);
    Always(sddl, steps);
    assert p.pending == 0;
    AfterOnward(sddl, steps, Posting(h));
    Posts(p, h);
    var posted := After(sddl, steps + Posting(h));
    AfterOnward(sddl, steps + Posting(h), Adopting(file));
    Connects(posted, file);
    Always(sddl, steps + Posting(h));
    MetInv(posted, h);
    AdoptsMet(Met(posted, h), file);
  }

  lemma MetInv(p: Server, h: nat)
    requires Inv(p) && p.serve == Connecting(h)
    ensures h in p.open && Inv(Met(p, h))
  {
    var accepted := SetConn(p, h, Accepted);
    SetConnInv(p, h, Accepted);
    PoppedInv(accepted, Adopt(h));
  }

  lemma AdoptsMet(p: Server, file: nat)
    requires Inv(p) && p.serve.Adopt? && !p.dirty && file !in p.files
    ensures var q := Next(p, Ends(AdoptClient(file)));
            && LetIn(q, p.serve.h, file) && q.sddl == p.sddl
            && (p.client.Some? ==> p.client.value in q.files && !q.files[p.client.value].isOpen)
  {
  }

  /** MAIN: a user switch while the loop waits: granting the new user ends the wait, and the next client
      is let in under a DACL that names the new user. */
  lemma {:induction false} SwitchedUserIsLetIn(sddl: string, steps: seq<Step>, caller: nat, userSID: string,
                                               h: nat, file: nat)
    requires var p := After(sddl, steps);
             && p.serve.Connecting? && p.pending in p.open && p.open[p.pending].conn.Waiting?
             && caller !in p.callers && userSID != "" && SddlFor(userSID) != p.sddl
             && h != 0 && h !in p.open && file !in p.files
    ensures var q := After(sddl, steps + [EnsureSddl(caller, userSID)] + Discarding() + Posting(h) + Adopting(file));
            LetIn(q, h, file) && q.files[file].sddl == SddlFor(userSID)
  {
    var p := After(sddl, steps);
    var granted := steps + [EnsureSddl(caller, userSID)];
    assert Front(granted) == steps;
    Always(sddl, steps);
    GrantRefuses(p, caller, userSID);
    var q := After(sddl, granted);
    AfterOnward(sddl, granted, Discarding());
    Discards(q);
    NextClientIsLetIn(sddl, granted + Discarding(), h, file);
  }

  lemma GrantRefuses(p: Server, caller: nat, userSID: string)
    requires Inv(p) && p.serve.Connecting? && p.pending in p.open && p.open[p.pending].conn.Waiting?
    requires caller !in p.callers && userSID != "" && SddlFor(userSID) != p.sddl
    ensures var q := Next(p, EnsureSddl(caller, userSID));
            && q.serve == p.serve && q.pending == p.pending == p.serve.h && q.sddl == SddlFor(userSID)
            && q.serve.h in q.open && q.open[q.serve.h].conn.Refused?
            && q.open.Keys <= p.open.Keys && q.files.Keys == p.files.Keys
  {
  }

  /** An instance that cannot be created: the loop tries again. */
  function Failing(): seq<Step> {
    [Opens(ReadDacl)] + ([Opens(CheckStale)] + ([Opens(LookupPending)] + ([Opens(CreateFails)] + [])))
  }

  lemma {:induction false} Fails(p: Server)
    requires p.serve.Top? && p.pending == 0
    ensures Onward(p, Failing()) == p.(dirty := false)
  {
    var p1 := p.(dirty := false, serve := Read(p.sddl, p.dirty));
    var p2 := p1.(serve := Lookup(p.sddl));
    var p3 := p2.(serve := Create(p.sddl));
    assert Next(p, Opens(ReadDacl)) == p1 && Next(p1, Opens(CheckStale)) == p2 && Next(p2, Opens(LookupPending)) == p3;
    assert Next(p3, Opens(CreateFails)) == p.(dirty := false);
    hide Next;
    OnwardOne(p, Opens(ReadDacl), [Opens(CheckStale)] + ([Opens(LookupPending)] + ([Opens(CreateFails)] + [])));
    OnwardOne(p1, Opens(CheckStale), [Opens(LookupPending)] + ([Opens(CreateFails)] + []));
    OnwardOne(p2, Opens(LookupPending), [Opens(CreateFails)] + []);
    OnwardOne(p3, Opens(CreateFails), []);
  }

  /** A failure to create an instance costs nothing but the time. */
  lemma {:induction false} FailedCreateIsRetried(sddl: string, steps: seq<Step>, h: nat, file: nat)
    requires var p := After(sddl, steps); p.serve.Top? && h != 0 && h !in p.open && file !in p.files
    ensures LetIn(After(sddl, steps + Failing() + Posting(h) + Adopting(file)), h, file)
  {
    Always(sddl, steps);
    AfterOnward(sddl, steps, Failing());
    Fails(After(sddl, steps));
    NextClientIsLetIn(sddl, steps + Failing(), h, file);
  }
}
