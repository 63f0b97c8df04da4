/** The server's tables and the transactions on them (internal/server/store.go). */
module Store {
  import opened Common
  import opened Protocol

  datatype Device = Device(name: string, tokenHash: string, enrolledAt: int,
                           lastSeen: Option<int>, revokedAt: Option<int>)

  /** A row of heartbeats; its primary key is the heartbeat's id. */
  datatype Stored = Stored(device: string, hb: Heartbeat, receivedAt: int, agentSentAt: int)

  datatype Db = Db(devices: map<string, Device>, heartbeats: map<string, Stored>)

  datatype StoreError = ForeignKey | DuplicateKey | UnknownToken | Revoked | UnknownDevice | NotRevoked | StorageFailure

  // ---------------------------------------------------------------------------------------
  // Specification.
  // ---------------------------------------------------------------------------------------

  datatype Filled = Filled(rows: map<string, Stored>, accepted: nat)

  /** INSERT OR IGNORE of one batch: a known id is ignored, a new one needs its device. */
  function Fill(db: Db, deviceID: string, agentSentAt: int, receivedAt: int, hbs: seq<Heartbeat>): Result<Filled,
                StoreError> {
    if hbs == [] then Ok(Filled(db.heartbeats, 0))
    else
      match Fill(db, deviceID, agentSentAt, receivedAt, Front(hbs))
      case Err(e) => Err(e)
      case Ok(f) =>
        var h := Last(hbs);
        if h.id in f.rows then Ok(f)
        else if deviceID !in db.devices then Err(ForeignKey)
        else Ok(Filled(f.rows[h.id := Stored(deviceID, h, receivedAt, agentSentAt)], f.accepted + 1))
  }

  function Seen(devices: map<string, Device>, deviceID: string, now: int): map<string, Device> {
    if deviceID in devices then devices[deviceID := devices[deviceID].(lastSeen := Some(now))] else devices
  }

  /** The transaction of InsertHeartbeats: the whole batch or nothing. */
  function Inserted(db: Db, deviceID: string, agentSentAt: int, receivedAt: int, hbs: seq<Heartbeat>): (Db,
                    Result<nat, StoreError>) {
    match Fill(db, deviceID, agentSentAt, receivedAt, hbs)
    case Err(e) => (db, Err(e))
    case Ok(f) => (Db(Seen(db.devices, deviceID, receivedAt), f.rows), Ok(f.accepted))
  }

  function RowsWithout(rows: map<string, Stored>, deviceID: string): map<string, Stored> {
    map id | id in rows && rows[id].device != deviceID :: rows[id]
  }

  function IdsOf(rows: map<string, Stored>, deviceID: string): set<string> {
    set id | id in rows && rows[id].device == deviceID
  }

  function Created(db: Db, deviceID: string, name: string, tokenHash: string, now: int): (Db, Option<StoreError>) {
    if deviceID in db.devices then (db, Some(DuplicateKey))
    else (db.(devices := db.devices[deviceID := Device(name, tokenHash, now, None, None)]), None)
  }

  function RevokedDb(db: Db, deviceID: string, now: int): Db {
    if deviceID in db.devices
    then db.(devices := db.devices[deviceID := db.devices[deviceID].(revokedAt := Some(now))]) else db
  }

  function Deleted(db: Db, deviceID: string): (Db, Option<StoreError>) {
    if deviceID !in db.devices then (db, Some(UnknownDevice))
    else if db.devices[deviceID].revokedAt.None? then (db, Some(NotRevoked))
    else (Db(db.devices - {deviceID}, RowsWithout(db.heartbeats, deviceID)), None)
  }

  /** What a token lookup may answer; token_hash is not unique in the schema. */
  ghost predicate Resolves(db: Db, tokenHash: string, r: Result<string, StoreError>) {
    match r
    case Ok(id) => id in db.devices && db.devices[id].tokenHash == tokenHash && db.devices[id].revokedAt.None?
    case Err(e) =>
      || (e == UnknownToken && forall id :: id in db.devices ==> db.devices[id].tokenHash != tokenHash)
      || (e == Revoked && exists id ::
            id in db.devices && db.devices[id].tokenHash == tokenHash && db.devices[id].revokedAt.Some?)
  }

  // ---------------------------------------------------------------------------------------
  // The store.
  // ---------------------------------------------------------------------------------------

  class Store {
    var devices: map<string, Device>
    var heartbeats: map<string, Stored>

    ghost function Tables(): Db
      reads this
    {
      Db(devices, heartbeats)
    }

    constructor ()
      ensures Tables() == Db(map[], map[])
    {
      devices, heartbeats := map[], map[];
    }

    method InsertHeartbeats(deviceID: string, agentSentAt: int, hbs: seq<Heartbeat>, receivedAt: int)
      returns (r: Result<nat, StoreError>)
      modifies this
      ensures Tables() == Inserted(old(Tables()), deviceID, agentSentAt, receivedAt, hbs).0
      ensures r == Inserted(old(Tables()), deviceID, agentSentAt, receivedAt, hbs).1
    {
      var rows, accepted := heartbeats, 0;  // the transaction's view, dropped on error
      for i := 0 to |hbs|
        modifies {}
        invariant Fill(Tables(), deviceID, agentSentAt, receivedAt, hbs[..i]) == Ok(Filled(rows, accepted))
      {
        var h := hbs[i];
        assert Front(hbs[..i + 1]) == hbs[..i] && Last(hbs[..i + 1]) == h;
        if h.id !in rows {
          if deviceID !in devices {
            FillFails(Tables(), deviceID, agentSentAt, receivedAt, hbs, i + 1);
            return Err(ForeignKey);
          }
          rows := rows[h.id := Stored(deviceID, h, receivedAt, agentSentAt)];
          accepted := accepted + 1;
        }
      }
      assert hbs[..|hbs|] == hbs;
      heartbeats := rows;
      if deviceID in devices {
        devices := devices[deviceID := devices[deviceID].(lastSeen := Some(receivedAt))];
      }
      return Ok(accepted);
    }

    method CreateDevice(deviceID: string, name: string, tokenHash: string, now: int) returns (error: Option<StoreError>)
      modifies this
      ensures (Tables(), error) == Created(old(Tables()), deviceID, name, tokenHash, now)
    {
      if deviceID in devices {
        return Some(DuplicateKey);
      }
      devices := devices[deviceID := Device(name, tokenHash, now, None, None)];
      return None;
    }

    /** healthy says whether the database can be read at all. */
    method DeviceIDByToken(tokenHash: string, healthy: bool) returns (r: Result<string, StoreError>)
      ensures if healthy then Resolves(Tables(), tokenHash, r) else r == Err(StorageFailure)
    {
      if !healthy {
        return Err(StorageFailure);
      }
      var ids := set id | id in devices && devices[id].tokenHash == tokenHash;
      if ids == {} {
        assert forall id :: id in devices && devices[id].tokenHash == tokenHash ==> id in ids;
        return Err(UnknownToken);
      }
      var id :| id in ids;
      return if devices[id].revokedAt.Some? then Err(Revoked) else Ok(id);
    }

    method RevokeDevice(deviceID: string, now: int)
      modifies this
      ensures Tables() == RevokedDb(old(Tables()), deviceID, now)
    {
      if deviceID in devices {
        devices := devices[deviceID := devices[deviceID].(revokedAt := Some(now))];
      }
    }

    method DeleteDevice(deviceID: string) returns (error: Option<StoreError>)
      modifies this
      ensures (Tables(), error) == Deleted(old(Tables()), deviceID)
    {
      if deviceID !in devices {
        return Some(UnknownDevice);
      }
      if devices[deviceID].revokedAt.None? {
        return Some(NotRevoked);
      }
      heartbeats := map id | id in heartbeats && heartbeats[id].device != deviceID :: heartbeats[id];
      devices := devices - {deviceID};
      return None;
    }
  }

  lemma {:induction false} FillFails(db: Db, deviceID: string, agentSentAt: int, receivedAt: int, hbs: seq<Heartbeat>,
                                     n: nat)
    requires n <= |hbs| && Fill(db, deviceID, agentSentAt, receivedAt, hbs[..n]) == Err(ForeignKey)
    ensures Fill(db, deviceID, agentSentAt, receivedAt, hbs) == Err(ForeignKey)
    decreases |hbs|
  {
    if n < |hbs| {
      assert Front(hbs)[..n] == hbs[..n];
      FillFails(db, deviceID, agentSentAt, receivedAt, Front(hbs), n);
    } else {
      assert hbs[..n] == hbs;
    }
  }

  // ---------------------------------------------------------------------------------------
  // What the transactions keep.
  // ---------------------------------------------------------------------------------------

  /** The foreign key. */
  ghost predicate RowsHaveDevices(db: Db) {
    forall id :: id in db.heartbeats ==> db.heartbeats[id].device in db.devices
  }

  /** The primary key: a row sits under its heartbeat's id. */
  ghost predicate KeyedById(db: Db) {
    forall id :: id in db.heartbeats ==> db.heartbeats[id].hb.id == id
  }

  /** f has every row of db unchanged, a row for each id of hbs, and each row that is new under the
      batch's device and times. */
  ghost predicate Added(db: Db, deviceID: string, agentSentAt: int, receivedAt: int, hbs: seq<Heartbeat>, f: Filled) {
    && |f.rows| == |db.heartbeats| + f.accepted
    && (forall id :: id in db.heartbeats ==> id in f.rows && f.rows[id] == db.heartbeats[id])
    && (forall h :: h in hbs ==> h.id in f.rows)
    && (forall id :: id in f.rows && id !in db.heartbeats ==>
          && f.rows[id].device == deviceID && deviceID in db.devices
          && f.rows[id].receivedAt == receivedAt && f.rows[id].agentSentAt == agentSentAt
          && f.rows[id].hb in hbs && f.rows[id].hb.id == id)
  }

  /** A batch adds rows, changes none, adds one for each id it is first to bring, and counts them. */
  lemma {:induction false} FillAdds(db: Db, deviceID: string, agentSentAt: int, receivedAt: int, hbs: seq<Heartbeat>)
    requires Fill(db, deviceID, agentSentAt, receivedAt, hbs).Ok?
    ensures Added(db, deviceID, agentSentAt, receivedAt, hbs, Fill(db, deviceID, agentSentAt, receivedAt, hbs).value)
  {
    if hbs != [] {
      var before := Fill(db, deviceID, agentSentAt, receivedAt, Front(hbs)).value;
      FillAdds(db, deviceID, agentSentAt, receivedAt, Front(hbs));
      assert hbs == Front(hbs) + [Last(hbs)];
      if Last(hbs).id in before.rows {
        AddsNothing(db, deviceID, agentSentAt, receivedAt, Front(hbs), before, Last(hbs));
      } else {
        AddsOne(db, deviceID, agentSentAt, receivedAt, Front(hbs), before, Last(hbs));
      }
    }
  }

  lemma AddsNothing(db: Db, deviceID: string, agentSentAt: int, receivedAt: int, hbs: seq<Heartbeat>, f: Filled,
                    h: Heartbeat)
    requires Added(db, deviceID, agentSentAt, receivedAt, hbs, f) && h.id in f.rows
    ensures Added(db, deviceID, agentSentAt, receivedAt, hbs + [h], f)
  {
  }

  lemma AddsOne(db: Db, deviceID: string, agentSentAt: int, receivedAt: int, hbs: seq<Heartbeat>, f: Filled,
                h: Heartbeat)
    requires Added(db, deviceID, agentSentAt, receivedAt, hbs, f) && h.id !in f.rows && deviceID in db.devices
    ensures Added(db, deviceID, agentSentAt, receivedAt, hbs + [h],
                  Filled(f.rows[h.id := Stored(deviceID, h, receivedAt, agentSentAt)], f.accepted + 1))
  {
    assert h.id !in db.heartbeats;
  }

  /** A batch fails exactly when its device is gone and it brings an id that is not stored. */
  lemma {:induction false} FillFailsIff(db: Db, deviceID: string, agentSentAt: int, receivedAt: int,
                                        hbs: seq<Heartbeat>)
    ensures Fill(db, deviceID, agentSentAt, receivedAt, hbs).Err?
            <==> deviceID !in db.devices && exists h :: h in hbs && h.id !in db.heartbeats
    ensures deviceID !in db.devices && Fill(db, deviceID, agentSentAt, receivedAt, hbs).Ok?
            ==> Fill(db, deviceID, agentSentAt, receivedAt, hbs) == Ok(Filled(db.heartbeats, 0))
  {
    if hbs != [] {
      FillFailsIff(db, deviceID, agentSentAt, receivedAt, Front(hbs));
      assert forall h :: h in hbs <==> h in Front(hbs) || h == Last(hbs);
    }
  }

  lemma {:induction false} DeleteSplits(rows: map<string, Stored>, deviceID: string)
    ensures |rows| == |RowsWithout(rows, deviceID)| + |IdsOf(rows, deviceID)|
  {
    assert rows.Keys == RowsWithout(rows, deviceID).Keys + IdsOf(rows, deviceID);
  }

  // ---------------------------------------------------------------------------------------
  // What each transaction touches, table by table.
  // ---------------------------------------------------------------------------------------

  predicate HasRow(db: Db, id: string, row: Stored) { id in db.heartbeats && db.heartbeats[id] == row }

  predicate HasDevice(db: Db, id: string, d: Device) { id in db.devices && db.devices[id] == d }

  ghost predicate SameRowsBut(a: Db, b: Db, deviceID: string) {
    forall id: string, row: Stored :: row.device != deviceID ==> HasRow(a, id, row) == HasRow(b, id, row)
  }

  ghost predicate SameDevicesBut(a: Db, b: Db, deviceID: string) {
    forall id: string, d: Device :: id != deviceID ==> HasDevice(a, id, d) == HasDevice(b, id, d)
  }

  /** A deletion needs a revoked device, and takes that device and all its rows and nothing else. */
  lemma {:induction false} DeletesRevokedOnly(db: Db, deviceID: string)
    ensures var (after, error) := Deleted(db, deviceID);
            && (error == None <==> deviceID in db.devices && db.devices[deviceID].revokedAt.Some?)
            && (error == Some(UnknownDevice) <==> deviceID !in db.devices)
            && (error == Some(NotRevoked) <==> deviceID in db.devices && db.devices[deviceID].revokedAt.None?)
            && (error.Some? ==> after == db)
            && SameDevicesBut(db, after, deviceID) && SameRowsBut(db, after, deviceID)
            && (error == None ==>
                  deviceID !in after.devices
                  && forall id :: id in after.heartbeats ==> after.heartbeats[id].device != deviceID)
  {
  }

  /** A revocation stamps one device with the time and touches nothing else. */
  lemma {:induction false} RevokesOneOnly(db: Db, deviceID: string, now: int)
    ensures var after := RevokedDb(db, deviceID, now);
            && after.heartbeats == db.heartbeats && after.devices.Keys == db.devices.Keys
            && SameDevicesBut(db, after, deviceID)
            && (deviceID in db.devices ==>
                  var d, e := db.devices[deviceID], after.devices[deviceID];
                  && e.revokedAt == Some(now) && e.name == d.name && e.tokenHash == d.tokenHash
                  && e.enrolledAt == d.enrolledAt && e.lastSeen == d.lastSeen)
  {
  }

  /** An insert leaves a trace of itself only on its own device: when it was last seen. */
  lemma {:induction false} InsertTouchesLastSeen(db: Db, deviceID: string, agentSentAt: int, receivedAt: int,
                                                 hbs: seq<Heartbeat>)
    ensures var (after, r) := Inserted(db, deviceID, agentSentAt, receivedAt, hbs);
            && (r.Err? ==> after == db)
            && after.devices.Keys == db.devices.Keys && SameDevicesBut(db, after, deviceID)
            && (r.Ok? && deviceID in db.devices ==>
                  var d, e := db.devices[deviceID], after.devices[deviceID];
                  && e.lastSeen == Some(receivedAt) && e.name == d.name && e.tokenHash == d.tokenHash
                  && e.enrolledAt == d.enrolledAt && e.revokedAt == d.revokedAt)
  {
  }

  /** When no two devices share a token, a lookup has one answer: its device, that it is revoked, or
      that there is none. */
  lemma {:induction false} TokenAnswers(db: Db, tokenHash: string, r: Result<string, StoreError>)
    requires forall a, b ::
               (a in db.devices && b in db.devices
                && db.devices[a].tokenHash == tokenHash && db.devices[b].tokenHash == tokenHash) ==> a == b
    ensures forall d :: d in db.devices && db.devices[d].tokenHash == tokenHash ==>
              (Resolves(db, tokenHash, r) <==> r == if db.devices[d].revokedAt.None? then Ok(d) else Err(Revoked))
    ensures (forall d :: d in db.devices ==> db.devices[d].tokenHash != tokenHash) ==>
              (Resolves(db, tokenHash, r) <==> r == Err(UnknownToken))
  {
  }

  /** A device just enrolled is what its token resolves to, until it is revoked. */
  lemma {:induction false} EnrolledTokenWorks(db: Db, deviceID: string, name: string, tokenHash: string,
                                              enrolledAt: int, revokedAt: int)
    requires deviceID !in db.devices && forall d :: d in db.devices ==> db.devices[d].tokenHash != tokenHash
    ensures var (after, error) := Created(db, deviceID, name, tokenHash, enrolledAt);
            && error == None && after.heartbeats == db.heartbeats && SameDevicesBut(db, after, deviceID)
            && after.devices.Keys == db.devices.Keys + {deviceID}
            && after.devices[deviceID].name == name && after.devices[deviceID].enrolledAt == enrolledAt
            && after.devices[deviceID].lastSeen == None
            && (forall r :: Resolves(after, tokenHash, r) <==> r == Ok(deviceID))
            && (forall r :: Resolves(RevokedDb(after, deviceID, revokedAt), tokenHash, r) <==> r == Err(Revoked))
  {
    var after := Created(db, deviceID, name, tokenHash, enrolledAt).0;
    forall r ensures Resolves(after, tokenHash, r) <==> r == Ok(deviceID) {
      TokenAnswers(after, tokenHash, r);
    }
    var revoked := RevokedDb(after, deviceID, revokedAt);
    assert revoked.devices[deviceID].tokenHash == tokenHash && revoked.devices[deviceID].revokedAt == Some(revokedAt);
    forall r ensures Resolves(revoked, tokenHash, r) <==> r == Err(Revoked) {
      TokenAnswers(revoked, tokenHash, r);
    }
  }
}
