/** POST /v1/ingest, and the device lifecycle it races with (internal/server/ingest.go). */
module Ingest {
  import opened Common
  import opened Protocol
  import opened Store

  datatype Batch = Batch(schemaVersion: int, deviceSentAt: int, heartbeats: seq<Heartbeat>)

  /** hashToken is taken as given; body is None when it does not decode. */
  datatype Request = Request(httpMethod: string, authorization: string, body: Option<Batch>)

  const BEARER: string := "Bearer "

  function BearerToken(header: string): Option<string> {
    if |header| <= |BEARER| || header[..|BEARER|] != BEARER then None else Some(header[|BEARER|..])
  }

  /** The status of a refused request, given the answer to its token lookup; None lets it in. */
  function Refusal(req: Request, answer: Result<string, StoreError>): Option<int> {
    if req.httpMethod != "POST" then Some(405)
    else if BearerToken(req.authorization).None? then Some(401)
    else
      match answer
      case Err(Revoked) => Some(403)
      case Err(UnknownToken) => Some(401)
      case Err(_) => Some(500)
      case Ok(_) =>
        if req.body.None? || req.body.value.schemaVersion != SCHEMA_VERSION then Some(400) else None
  }

  /** One request with nothing in between. Only a 200 writes; answer is the token lookup's. */
  method IngestHandler(store: Store, req: Request, hashToken: string -> string, healthy: bool, receivedAt: int)
    returns (status: int, accepted: nat, ghost answer: Result<string, StoreError>)
    modifies store
    ensures req.httpMethod == "POST" && BearerToken(req.authorization).Some? ==>
              if healthy then Resolves(old(store.Tables()), hashToken(BearerToken(req.authorization).value), answer)
              else answer == Err(StorageFailure)
    ensures status != 200 ==> store.Tables() == old(store.Tables()) && accepted == 0
    ensures match Refusal(req, answer)
            case Some(code) => status == code
            case None =>
              var batch := req.body.value;
              var (db, r) := Inserted(old(store.Tables()), answer.value, batch.deviceSentAt, receivedAt,
                                       batch.heartbeats);
              store.Tables() == db && if r.Ok? then status == 200 && accepted == r.value else status == 500
  {
    accepted, answer := 0, Err(StorageFailure);
    if req.httpMethod != "POST" {
      status := 405;
      return;
    }
    var token := BearerToken(req.authorization);
    if token.None? {
      status := 401;
      return;
    }
    var device := store.DeviceIDByToken(hashToken(token.value), healthy);
    answer := device;
    match device
    case Err(Revoked) =>
      status := 403;
    case Err(UnknownToken) =>
      status := 401;
    case Err(_) =>
      status := 500;
    case Ok(deviceID) =>
      if req.body.None? || req.body.value.schemaVersion != SCHEMA_VERSION {
        status := 400;
        return;
      }
      var batch := req.body.value;
      var r := store.InsertHeartbeats(deviceID, batch.deviceSentAt, batch.heartbeats, receivedAt);
      match r
      case Err(_) =>
        status := 500;
      case Ok(n) =>
        status, accepted := 200, n;
  }

  // ---------------------------------------------------------------------------------------
  // Interleavings. A request authenticates in one step and inserts in a later one.
  // ---------------------------------------------------------------------------------------

  /** waiting: the requests past authentication, with their device; accepted: the sum of all
      committed counts; removed: rows deleted with their device; gone: deleted devices. */
  datatype Server = Server(db: Db, waiting: map<nat, string>, accepted: nat, removed: nat, gone: set<string>)

  datatype Step =
    | Enrol(deviceID: string, name: string, tokenHash: string, now: int)
    | Revoke(deviceID: string, now: int)
    | Delete(deviceID: string)
    | Authenticate(request: nat, answer: Result<string, StoreError>, tokenHash: string)
    | Insert(request: nat, batch: Batch, receivedAt: int)

  /** Device ids are random and never drawn twice; a lookup answers as the table stands. */
  ghost predicate Enabled(s: Server, step: Step) {
    match step
    case Enrol(deviceID, _, _, _) => deviceID !in s.gone
    case Authenticate(request, answer, tokenHash) => request !in s.waiting && Resolves(s.db, tokenHash, answer)
    case Insert(request, _, _) => request in s.waiting
    case _ => true
  }

  ghost function Next(s: Server, step: Step): Server {
    if !Enabled(s, step) then s
    else
      match step
      case Enrol(deviceID, name, tokenHash, now) => s.(db := Created(s.db, deviceID, name, tokenHash, now).0)
      case Revoke(deviceID, now) => s.(db := RevokedDb(s.db, deviceID, now))
      case Delete(deviceID) =>
        var (db, error) := Deleted(s.db, deviceID);
        if error.Some? then s
        else s.(db := db, removed := s.removed + |IdsOf(s.db.heartbeats, deviceID)|, gone := s.gone + {deviceID})
      case Authenticate(request, answer, _) =>
        if answer.Ok? then s.(waiting := s.waiting[request := answer.value]) else s
      case Insert(request, batch, receivedAt) =>
        var done := s.(waiting := s.waiting - {request});
        if batch.schemaVersion != SCHEMA_VERSION then done
        else
          var (db, r) := Inserted(s.db, s.waiting[request], batch.deviceSentAt, receivedAt, batch.heartbeats);
          done.(db := db, accepted := s.accepted + if r.Ok? then r.value else 0)
  }

  ghost function After(steps: seq<Step>): Server {
    if steps == [] then Server(Db(map[], map[]), map[], 0, 0, {}) else Next(After(Front(steps)), Last(steps))
  }

  ghost predicate Inv(s: Server) {
    && RowsHaveDevices(s.db) && KeyedById(s.db)
    && s.db.devices.Keys !! s.gone
    && (forall request :: request in s.waiting ==> s.waiting[request] in s.db.devices || s.waiting[request] in s.gone)
    && s.accepted == |s.db.heartbeats| + s.removed
  }

  lemma InsertInv(s: Server, request: nat, batch: Batch, receivedAt: int)
    requires Inv(s) && request in s.waiting
    ensures Inv(Next(s, Insert(request, batch, receivedAt)))
  {
    var f := Fill(s.db, s.waiting[request], batch.deviceSentAt, receivedAt, batch.heartbeats);
    if f.Ok? {
      FillAdds(s.db, s.waiting[request], batch.deviceSentAt, receivedAt, batch.heartbeats);
    }
  }

  lemma {:induction false} NextInv(s: Server, step: Step)
    requires Inv(s)
    ensures Inv(Next(s, step))
  {
    if Enabled(s, step) {
      match step
      case Delete(deviceID) =>
        DeleteSplits(s.db.heartbeats, deviceID);
      case Insert(request, batch, receivedAt) =>
        InsertInv(s, request, batch, receivedAt);
      case _ =>
    }
  }

  lemma {:induction false} Always(steps: seq<Step>)
    ensures Inv(After(steps))
  {
    if steps != [] {
      Always(Front(steps));
      NextInv(After(Front(steps)), Last(steps));
    }
  }

  /** MAIN: whatever races, every stored heartbeat's device is enrolled, no row of a deleted device
      is there again, and the accepted counts add up to the rows there and the rows deleted. */
  lemma {:induction false} TablesStayConsistent(steps: seq<Step>)
    ensures var s := After(steps);
            && (forall id :: id in s.db.heartbeats ==>
                  s.db.heartbeats[id].device in s.db.devices && s.db.heartbeats[id].device !in s.gone)
            && s.accepted == |s.db.heartbeats| + s.removed
  {
    Always(steps);
  }

  /** Even a request that authenticated before its device was deleted stores nothing. */
  lemma {:induction false} DeletedDeviceStoresNothing(steps: seq<Step>, request: nat, batch: Batch, receivedAt: int)
    requires request in After(steps).waiting && After(steps).waiting[request] in After(steps).gone
    ensures After(steps + [Insert(request, batch, receivedAt)]).db == After(steps).db
  {
    var s := After(steps);
    Always(steps);
    assert Front(steps + [Insert(request, batch, receivedAt)]) == steps;
    FillFailsIff(s.db, s.waiting[request], batch.deviceSentAt, receivedAt, batch.heartbeats);
  }

  /** A revoked device's request that was already past authentication is still stored. */
  lemma {:induction false} RevocationDoesNotStopAuthenticated(steps: seq<Step>, request: nat, h: Heartbeat,
                                                              sentAt: int, receivedAt: int, now: int)
    requires request in After(steps).waiting && After(steps).waiting[request] in After(steps).db.devices
    requires h.id !in After(steps).db.heartbeats
    ensures var s := After(steps + [Revoke(After(steps).waiting[request], now),
                                    Insert(request, Batch(SCHEMA_VERSION, sentAt, [h]), receivedAt)]);
            h.id in s.db.heartbeats && s.db.heartbeats[h.id].hb == h
  {
    var device := After(steps).waiting[request];
    var insert := Insert(request, Batch(SCHEMA_VERSION, sentAt, [h]), receivedAt);
    var revoked := steps + [Revoke(device, now)];
    assert Front(revoked) == steps;
    assert steps + [Revoke(device, now), insert] == revoked + [insert];
    assert Front(revoked + [insert]) == revoked;
    var db := After(revoked).db;
    assert Front([h]) == [] && Last([h]) == h;
    assert Fill(db, device, sentAt, receivedAt, []) == Ok(Filled(db.heartbeats, 0));
  }

  // ---------------------------------------------------------------------------------------
  // Exactly what a revocation stops.
  // ---------------------------------------------------------------------------------------

  /** The device was revoked, and perhaps deleted since. */
  predicate Out(s: Server, d: string) {
    d in s.gone || (d in s.db.devices && s.db.devices[d].revokedAt.Some?)
  }

  predicate WaitsFor(s: Server, request: nat, d: string) {
    request in s.waiting && s.waiting[request] == d
  }

  lemma {:induction false} OutStays(s: Server, step: Step, d: string)
    requires Inv(s) && Out(s, d)
    ensures Out(Next(s, step), d)
    ensures forall request :: WaitsFor(Next(s, step), request, d) ==> WaitsFor(s, request, d)
  {
    if Enabled(s, step) && step.Insert? {
      assert Next(s, step).waiting == s.waiting - {step.request};
    }
  }

  /** From a revocation on, no request gets past authentication for the device. */
  lemma {:induction false} OnlyOlderRequestsWait(steps: seq<Step>, more: seq<Step>, d: string)
    requires Out(After(steps), d)
    ensures Out(After(steps + more), d)
    ensures forall request :: WaitsFor(After(steps + more), request, d) ==> WaitsFor(After(steps), request, d)
  {
    if more == [] {
      assert steps + more == steps;
    } else {
      OnlyOlderRequestsWait(steps, Front(more), d);
      assert Front(steps + more) == steps + Front(more) && Last(steps + more) == Last(more);
      Always(steps + Front(more));
      OutStays(After(steps + Front(more)), Last(more), d);
    }
  }

  ghost predicate GainsRow(before: Db, after: Db, d: string) {
    exists id :: id in after.heartbeats && id !in before.heartbeats && after.heartbeats[id].device == d
  }

  ghost predicate BringsNews(db: Db, batch: Batch) {
    batch.schemaVersion == SCHEMA_VERSION && exists h :: h in batch.heartbeats && h.id !in db.heartbeats
  }

  lemma {:induction false} GainsRowIff(s: Server, step: Step, d: string)
    ensures GainsRow(s.db, Next(s, step).db, d) <==>
            step.Insert? && WaitsFor(s, step.request, d) && d in s.db.devices && BringsNews(s.db, step.batch)
  {
    if Enabled(s, step) && step.Insert? {
      InsertGainsIff(s, step.request, step.batch, step.receivedAt, d);
    }
  }

  lemma {:induction false} InsertGainsIff(s: Server, request: nat, batch: Batch, receivedAt: int, d: string)
    requires request in s.waiting
    ensures GainsRow(s.db, Next(s, Insert(request, batch, receivedAt)).db, d) <==>
            s.waiting[request] == d && d in s.db.devices && BringsNews(s.db, batch)
  {
    var device := s.waiting[request];
    var f := Fill(s.db, device, batch.deviceSentAt, receivedAt, batch.heartbeats);
    FillFailsIff(s.db, device, batch.deviceSentAt, receivedAt, batch.heartbeats);
    if f.Ok? {
      FillAdds(s.db, device, batch.deviceSentAt, receivedAt, batch.heartbeats);
    }
  }

  /** MAIN: after a device was revoked, whatever happens, it gains a row if and only if a request
      that was already past authentication at the revocation inserts news before it is deleted. */
  lemma {:induction false} RevokedDeviceGainsRowIff(steps: seq<Step>, more: seq<Step>, step: Step, d: string)
    requires Out(After(steps), d)
    ensures var s := After(steps + more);
            GainsRow(s.db, After(steps + more + [step]).db, d) <==>
            && step.Insert? && WaitsFor(After(steps), step.request, d) && WaitsFor(s, step.request, d)
            && d !in s.gone && BringsNews(s.db, step.batch)
  {
    var s := After(steps + more);
    OnlyOlderRequestsWait(steps, more, d);
    Always(steps + more);
    assert Front(steps + more + [step]) == steps + more;
    GainsRowIff(s, step, d);
  }

  /** Such a row can be had: enrol, authenticate, revoke, and only then insert. */
  lemma {:induction false} RevokedDeviceCanStillGain(d: string, hash: string, h: Heartbeat)
    ensures var steps := [Enrol(d, "PC-01", hash, 0), Authenticate(0, Ok(d), hash), Revoke(d, 1)];
            && Out(After(steps), d)
            && GainsRow(After(steps).db, After(steps + [Insert(0, Batch(SCHEMA_VERSION, 2, [h]), 2)]).db, d)
  {
    var enrol, auth, revoke := Enrol(d, "PC-01", hash, 0), Authenticate(0, Ok(d), hash), Revoke(d, 1);
    assert Front([enrol]) == [] && Front([enrol, auth]) == [enrol] && Front([enrol, auth, revoke]) == [enrol, auth];
    var start := After([]);
    var enrolled := Next(start, enrol);
    assert After([enrol]) == enrolled;
    assert Enabled(enrolled, auth);
    var waiting := Next(enrolled, auth);
    assert After([enrol, auth]) == waiting && waiting.waiting[0] == d;
    var s := Next(waiting, revoke);
    var steps := [enrol, auth, revoke];
    assert After(steps) == s && WaitsFor(s, 0, d) && d in s.db.devices;
    assert steps + [] == steps && h in [h] && s.db.heartbeats == map[];
    RevokedDeviceGainsRowIff(steps, [], Insert(0, Batch(SCHEMA_VERSION, 2, [h]), 2), d);
    Always(steps);
  }

  // ---------------------------------------------------------------------------------------
  // An active device keeps its history.
  // ---------------------------------------------------------------------------------------

  lemma {:induction false} UnrevokedStays(s: Server, step: Step, d: string)
    requires Inv(s) && !Out(s, d) && !(step.Revoke? && step.deviceID == d)
    ensures !Out(Next(s, step), d)
    ensures forall id :: id in s.db.heartbeats && s.db.heartbeats[id].device == d ==>
              id in Next(s, step).db.heartbeats && Next(s, step).db.heartbeats[id] == s.db.heartbeats[id]
  {
    if Enabled(s, step) && step.Insert? {
      var batch, f := step.batch, Fill(s.db, s.waiting[step.request], step.batch.deviceSentAt, step.receivedAt,
                                       step.batch.heartbeats);
      if f.Ok? {
        FillAdds(s.db, s.waiting[step.request], batch.deviceSentAt, step.receivedAt, batch.heartbeats);
      }
    }
  }

  ghost predicate NeverRevokes(steps: seq<Step>, d: string) {
    forall step :: step in steps ==> !(step.Revoke? && step.deviceID == d)
  }

  lemma {:induction false} NeverOut(steps: seq<Step>, d: string)
    requires NeverRevokes(steps, d)
    ensures !Out(After(steps), d)
  {
    if steps != [] {
      assert Last(steps) in steps;
      NeverOut(Front(steps), d);
      Always(Front(steps));
      UnrevokedStays(After(Front(steps)), Last(steps), d);
    }
  }

  /** MAIN: unless somebody revokes a device, no row of it is ever deleted or changed, whatever else
      happens: deletions of it are refused. */
  lemma {:induction false} RowsOfUnrevokedStay(steps: seq<Step>, more: seq<Step>, d: string, id: string)
    requires NeverRevokes(steps + more, d)
    requires id in After(steps).db.heartbeats && After(steps).db.heartbeats[id].device == d
    ensures id in After(steps + more).db.heartbeats
    ensures After(steps + more).db.heartbeats[id] == After(steps).db.heartbeats[id]
  {
    if more == [] {
      assert steps + more == steps;
    } else {
      assert Front(steps + more) == steps + Front(more) && Last(steps + more) == Last(more);
      assert Last(more) in steps + more;
      assert forall step :: step in steps + Front(more) ==> step in steps + more;
      RowsOfUnrevokedStay(steps, Front(more), d, id);
      NeverOut(steps + Front(more), d);
      Always(steps + Front(more));
      UnrevokedStays(After(steps + Front(more)), Last(more), d);
    }
  }

  /** The deletion that is refused: enrol, authenticate, insert, delete leaves device and row. */
  lemma {:induction false} ActiveDeviceIsNotDeleted(d: string, hash: string, h: Heartbeat)
    ensures var steps := [Enrol(d, "PC-01", hash, 0), Authenticate(0, Ok(d), hash),
                          Insert(0, Batch(SCHEMA_VERSION, 1, [h]), 1)];
            var s := After(steps + [Delete(d)]);
            && d in s.db.devices && d !in s.gone
            && h.id in s.db.heartbeats && s.db.heartbeats[h.id].hb == h && s.db.heartbeats[h.id].device == d
  {
    var enrol, auth := Enrol(d, "PC-01", hash, 0), Authenticate(0, Ok(d), hash);
    var insert := Insert(0, Batch(SCHEMA_VERSION, 1, [h]), 1);
    var steps := [enrol, auth, insert];
    assert Front([enrol]) == [] && Front([enrol, auth]) == [enrol] && Front(steps) == [enrol, auth];
    var start := After([]);
    var enrolled := Next(start, enrol);
    assert After([enrol]) == enrolled && Enabled(enrolled, auth);
    var waiting := Next(enrolled, auth);
    assert After([enrol, auth]) == waiting && waiting.waiting[0] == d && waiting.db == enrolled.db;
    assert After(steps) == Next(waiting, insert) && Enabled(waiting, insert);
    FillAdds(waiting.db, d, 1, 1, [h]);
    assert h in [h] && waiting.db.heartbeats == map[];
    FillFailsIff(waiting.db, d, 1, 1, [h]);
    assert h.id in After(steps).db.heartbeats;
    RowsOfUnrevokedStay(steps, [Delete(d)], d, h.id);
    NeverOut(steps, d);
    Always(steps);
    assert Front(steps + [Delete(d)]) == steps;
  }

  // ---------------------------------------------------------------------------------------
  // Headers and statuses.
  // ---------------------------------------------------------------------------------------

  /** The token is what follows "Bearer ", and there must be some. */
  lemma {:induction false} BearerIs(header: string, token: string)
    ensures BearerToken(header) == Some(token) <==> header == "Bearer " + token && token != ""
    ensures BearerToken(header) == None <==> !exists t :: t != "" && header == "Bearer " + t
  {
    assert ("Bearer " + token)[7..] == token;
    if BearerToken(header).Some? {
      assert header == "Bearer " + header[7..];
    }
  }

  /** Every status has one cause. */
  lemma {:induction false} StatusMeans(req: Request, answer: Result<string, StoreError>)
    ensures var post := req.httpMethod == "POST";
            var bearer := exists t :: t != "" && req.authorization == "Bearer " + t;
            var valid := req.body.Some? && req.body.value.schemaVersion == 1;
            && (Refusal(req, answer) == Some(405) <==> !post)
            && (Refusal(req, answer) == Some(401) <==> post && (!bearer || answer == Err(UnknownToken)))
            && (Refusal(req, answer) == Some(403) <==> post && bearer && answer == Err(Revoked))
            && (Refusal(req, answer) == Some(400) <==> post && bearer && answer.Ok? && !valid)
            && (Refusal(req, answer) == None <==> post && bearer && answer.Ok? && valid)
            && (Refusal(req, answer) == Some(500) <==>
                  post && bearer && answer.Err? && answer.error != UnknownToken && answer.error != Revoked)
  {
    BearerIs(req.authorization, "");
  }

  /** Revoked, it can be deleted, and its rows go with it. */
  lemma {:induction false} RevokedDeviceIsDeleted(steps: seq<Step>, d: string)
    requires d in After(steps).db.devices && After(steps).db.devices[d].revokedAt.Some?
    ensures var s := After(steps + [Delete(d)]);
            && d !in s.db.devices && d in s.gone
            && forall id :: id in s.db.heartbeats ==> s.db.heartbeats[id].device != d
  {
    assert Front(steps + [Delete(d)]) == steps;
    DeletesRevokedOnly(After(steps).db, d);
  }
}
